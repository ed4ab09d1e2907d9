# A verified model of the `seq` query algebra

This project models `src/seq.ts`, a small algebra for querying and extracting
data from parsed HTML/XML trees. A query (the source's `Seq<T>`) is a pure
function from a context node to an ordered list of `(node, value)` pairs: the
node says where in the tree the result lives and is the context for whatever
is chained after it, the value is the extracted data. The combinators form a
"choice monad" (`unit`, `bind`, `map`, `empty`, `append`, `filter`); on top of
it sit context moves (`get`, `set`, `parentElement`, `closestElement`),
accessors (`text`, `html`, `href`), selection (`select`, `selectText`,
`closest`), quantifiers and aggregators (`take`, `first`, `length`, `values`,
`elements`, `maybe`) and record builders (`destructAll`, `destruct`).

Everything in the source is a side-effect-free expression, so the model is
made of Dafny functions, and the properties are lemmas stated pointwise: an
equality or a bound on the result lists at an arbitrary node `n`.

Modules:

- `Options` — `Option<T>` for `null`/`undefined`, and `Head` (head-or-absent).
- `Lists` — JavaScript's `flatMap`, `map` and `filter` on lists, by recursion,
  with their distribution and composition lemmas.
- `Queries` — the query type `Query<N, T>` and the six core combinators, with
  the monad laws, the monoid laws of `append`/`empty`, left and right zero and
  left distribution.
- `Nodes` — the tree, reached only through a `Dom<N>` record of capabilities
  (`parentElement`, `nodeType`, `textContent`, `trim`, `toString`,
  `getAttribute`, `querySelectorAll`, `closest`), and the context moves,
  accessors and selection built on it.
- `Aggregates` — `take`, `first`, `length`, `values`, `elements`, `maybe`.
- `Destructuring` — `destructAll` and `destruct`.

The node type is a type parameter `N`. What the DOM library does is not
specified: its functions are fields of the `Dom<N>` value that the accessors
take as a parameter, so selector matching, trimming and serialisation stay
uninterpreted.

Two library calls whose definitions are not part of this model are read as
follows. `maybe.fromList` (src/seq.ts:86) and `array.first`
(src/seq.ts:108) are taken to be "head of the list, or absent" (`Head`).
`base.sequence` (src/seq.ts:93) is taken to be the standard monadic
`sequence`: run the first query, then the rest at the node it produced, and
collect the values of every combination in order (`Sequence`).
`base.pipe(m, f)` (src/seq.ts:92), applied there to a query and a function
returning a query, is read as `bind(m, f)`.
`DestructAllIsDirect` then proves that, thanks to the `set(node)`
re-anchoring, `destructAll` is the same as computing every field's value list
directly at the context node.

Two details of the code worth noting:

- `take(k)` is `slice(0, k)`. A negative `k` therefore keeps all but the last
  `-k` pairs; it does not behave like `take(0)`.
- `parentElement` follows the DOM's `parentElement`: the parent only when it
  is an element.

## Model

| member | source | states |
|---|---|---|
| `Lists.FlatMap` | src/seq.ts:48 | `Array.prototype.flatMap`: each element's list, concatenated in order (laws in `FlatMapConcat`, `FlatMapFlatMap`) |
| `Options.Head` | src/seq.ts:86 | reading of `maybe.fromList` and `array.first`: the head of the list, or absent (stated by `MaybeSpec`, `DestructSpec`) |
| `Queries.Unit` | src/seq.ts:47 | definition of `unit(x)`: the single pair (context, x) (laws in `BindUnitLeft`, `BindUnitRight`) |
| `Queries.Bind` | src/seq.ts:48 | definition of `bind(q, f)`: `f(a)` run at `m` for each pair `(m, a)` of `q`, concatenated in order (laws in `BindAssoc`, `BindAppend`) |
| `Queries.Map` | src/seq.ts:49 | definition of `map(q, f)`: `f` applied to every value, nodes kept (stated by `MapShape`, `MapIsBindUnit`) |
| `Queries.Empty` | src/seq.ts:50 | definition of `empty()`: no pairs at any node (laws in `AppendMonoid`, `BindEmptyLeft`) |
| `Queries.Append` | src/seq.ts:51 | definition of `append(l, r)`: both run at the same node, left pairs first (laws in `AppendMonoid`, `BindAppend`) |
| `Queries.Filter` | src/seq.ts:53-56 | definition of `filter(p)(q)`: the pairs whose value satisfies `p` (stated by `FilterSpec`, `FilterIsBind`) |
| `Nodes.FromValues` | src/seq.ts:68 | definition of `fromValues` (stated by `FromValuesSpec`) |
| `Nodes.FromNodes` | src/seq.ts:69 | definition of `fromNodes` (stated by `FromNodesSpec`) |
| `Nodes.Gather` | src/seq.ts:70 | definition of `gather` (stated by `GatherIsMapGet`) |
| `Nodes.Text` | src/seq.ts:71 | definition of `text` (stated by `TextSpec`) |
| `Nodes.Html` | src/seq.ts:72 | definition of `html` (stated by `HtmlSpec`) |
| `Nodes.Href` | src/seq.ts:73 | definition of `href` (stated by `HrefSpec`) |
| `Nodes.ParentElement` | src/seq.ts:74 | definition of `parentElement` (stated by `ParentElementSpec`) |
| `Nodes.ClosestElement` | src/seq.ts:75 | definition of `closestElement` (stated by `ClosestElementSpec`) |
| `Nodes.Select` | src/seq.ts:76 | definition of `select(css)` over `querySelectorAll` (stated by `SelectSpec`) |
| `Nodes.SelectText` | src/seq.ts:77 | definition of `selectText(css)` as `bind(select(css), _ => text)` (stated by `SelectTextSpec`) |
| `Nodes.Closest` | src/seq.ts:78 | definition of `closest(css)` over the DOM's `closest` (stated by `ClosestSpec`, `MaybeClosest`) |
| `Nodes.Get` | src/seq.ts:79 | definition of `get` (stated by `GetSpec`) |
| `Nodes.Set` | src/seq.ts:80 | definition of `set(node)` (stated by `SetAnchors`) |
| `Aggregates.Take` | src/seq.ts:81 | definition of `take(k)(q)` as `slice(0, k)` (stated by `TakePrefix`, `TakeZero`, `TakeTake`) |
| `Aggregates.First` | src/seq.ts:82 | definition of `first` as `take(1)` (stated by `FirstSpec`, `FirstOfAppend`) |
| `Aggregates.Length` | src/seq.ts:83 | definition of `length` (stated by `LengthSpec`, `LengthAppend`) |
| `Aggregates.Values` | src/seq.ts:84 | definition of `values` (stated by `ValuesSpec`, `ValuesAppend`) |
| `Aggregates.Elements` | src/seq.ts:85 | definition of `elements` (stated by `ElementsSpec`, `ElementsValuesZip`) |
| `Aggregates.Maybe` | src/seq.ts:86 | definition of `maybe` as `map(values(q), fromList)` (stated by `MaybeSpec`, `MaybeFirst`) |
| `Destructuring.Sequence` | src/seq.ts:93 | reading of the library's `sequence` as the standard monadic one (stated by `SequenceOfSingles`) |
| `Destructuring.FromEntries` | src/seq.ts:99-101 | reading of `Object.fromEntries`: later entries overwrite earlier ones (stated by `FromEntriesKeys`, `FromEntriesLast`) |
| `Destructuring.DestructAll` | src/seq.ts:88-105 | definition of `destructAll` (stated by `DestructAllSpec`, `DestructAllIsDirect`, `DestructAllOrderFree`) |
| `Destructuring.Destruct` | src/seq.ts:107-110 | definition of `destruct` (stated by `DestructSpec`) |
| `Lists.MapList` | src/seq.ts:49 | `Array.prototype.map`: the result has the input's length and position `i` holds `f(s[i])` |
| `Lists.FilterList` | src/seq.ts:56 | `Array.prototype.filter`: no longer than the input; every kept element is in the input and satisfies `p`; every input element that satisfies `p` is kept |
| `Lists.FilterListCount` | src/seq.ts:56 | `Array.prototype.filter` keeps each element satisfying `p` exactly as often as it occurs in the input, and no other element |
| `Lists.Zip` | src/seq.ts:100 | pairing field names with value lists by position: length of the shorter list, position `i` holds `(a[i], b[i])` |
| `Queries.BindUnitLeft` | src/seq.ts:47-48 | monad left identity: `bind(unit(x), f)` at `n` is `f(x)` at `n` |
| `Queries.BindUnitRight` | src/seq.ts:47-48 | monad right identity: `bind(q, unit)` at `n` is `q` at `n` |
| `Queries.BindAssoc` | src/seq.ts:48 | monad associativity: `bind(bind(q, f), g)` equals `bind(q, a => bind(f(a), g))` at every node |
| `Queries.AppendMonoid` | src/seq.ts:50-51 | `append` is associative and `empty` is its left and right identity |
| `Queries.BindEmptyLeft` | src/seq.ts:48-50 | left zero: `bind(empty, f)` yields no pairs |
| `Queries.BindEmptyRight` | src/seq.ts:48-50 | right zero: binding into a continuation that always yields `empty` yields no pairs |
| `Queries.BindAppend` | src/seq.ts:48-51 | left distribution: `bind(append(a, b), f)` equals `append(bind(a, f), bind(b, f))` |
| `Queries.MapShape` | src/seq.ts:49 | `map(q, f)` has `q`'s length and nodes; only each value `v` becomes `f(v)` |
| `Queries.MapIsBindUnit` | src/seq.ts:47-49 | `map(q, f)` equals its monadic definition `bind(q, a => unit(f(a)))` |
| `Queries.MapMap` | src/seq.ts:49 | functor law: `map(map(q, f), g)` equals `map(q, g ∘ f)` |
| `Queries.FilterSpec` | src/seq.ts:53-56 | `filter(p)(q)` holds each pair of `q` whose value satisfies `p` exactly as often as `q` does, and no other pair; nodes unchanged. Order is stated by `FilterIsBind` and `FilterAppend` |
| `Queries.FilterAppend` | src/seq.ts:51-56 | `filter` keeps order: filtering a union is the union of the filtered sides, left first |
| `Queries.FilterIsBind` | src/seq.ts:47-56 | `filter(p)(q)` equals the monad-plus definition `bind(q, a => p(a) ? unit(a) : empty)` |
| `Nodes.FromValuesSpec` | src/seq.ts:68 | `fromValues(fun)` yields one pair per element of `fun(n)`, in order, each at the context node |
| `Nodes.FromNodesSpec` | src/seq.ts:69 | `fromNodes(fun)` yields one pair per node of `fun(n)`, in order, each node being its own value |
| `Nodes.GatherIsMapGet` | src/seq.ts:70 | `gather(f)` yields exactly one pair, at the context node, valued `f(n)`, and equals `map(get, f)` |
| `Nodes.TextSpec` | src/seq.ts:71 | `text` yields one pair at the node; absent exactly when there is no text content, otherwise the trimmed content |
| `Nodes.HtmlSpec` | src/seq.ts:72 | `html` yields one pair at the node, valued with its serialisation |
| `Nodes.HrefSpec` | src/seq.ts:73 | `href` yields one pair at the node, valued with its `href` attribute or absent |
| `Nodes.ParentElementSpec` | src/seq.ts:74 | `parentElement` yields at most one pair, none exactly when there is no parent element, otherwise `(parent, parent)` |
| `Nodes.ClosestElementSpec` | src/seq.ts:75 | `closestElement` yields `(n, n)` when `n` is an element (node type 1), otherwise what `parentElement` yields; at most one pair |
| `Nodes.SelectSpec` | src/seq.ts:76 | `select(css)` yields one pair per matching descendant in document order, each match as node and value |
| `Nodes.SelectTextSpec` | src/seq.ts:77 | `selectText(css)` yields, in document order, each matching descendant paired with its trimmed text |
| `Nodes.ClosestSpec` | src/seq.ts:78 | `closest(css)` yields at most one pair, none exactly when no ancestor-or-self matches, otherwise `(match, match)` |
| `Nodes.GetSpec` | src/seq.ts:79 | `get` yields `(n, n)`, so `bind(get, f)` runs `f(n)` at `n` |
| `Nodes.SetAnchors` | src/seq.ts:80 | `set(m)` yields `(m, m)` whatever the context, and a query bound behind it runs at `m` |
| `Aggregates.TakePrefix` | src/seq.ts:81 | `take(k)(q)` is a prefix of `q`'s pairs of length `min(k, |q(n)|)` for `k >= 0` (all but the last `-k` for negative `k`) |
| `Aggregates.TakeZero` | src/seq.ts:81 | `take(0)(q)` equals `empty` |
| `Aggregates.TakeTake` | src/seq.ts:81 | `take(j)(take(k)(q))` equals `take(min(j, k))(q)` for non-negative bounds |
| `Aggregates.FirstSpec` | src/seq.ts:82 | `first(q)` yields at most one pair: none exactly when `q` yields none, otherwise `q`'s first pair |
| `Aggregates.FirstOfAppend` | src/seq.ts:82 | the first pair of `append(a, b)` is `a`'s first pair unless `a` yields nothing, then `b`'s |
| `Aggregates.LengthSpec` | src/seq.ts:83 | `length(q)` yields one pair at the node valued `|q(n)|`, equal to the sizes of `values(q)`'s and `elements(q)`'s lists |
| `Aggregates.LengthAppend` | src/seq.ts:83 | the length of a union is the sum of the lengths |
| `Aggregates.ValuesSpec` | src/seq.ts:84 | `values(q)` yields one pair at the node whose list holds `q`'s values in order |
| `Aggregates.ValuesAppend` | src/seq.ts:84 | the value list of a union is the left list followed by the right list |
| `Aggregates.ElementsSpec` | src/seq.ts:85 | `elements(q)` yields one pair at the node whose list holds `q`'s nodes in order |
| `Aggregates.ElementsValuesZip` | src/seq.ts:84-85 | zipping the lists of `elements(q)` and `values(q)` gives back `q`'s pairs |
| `Aggregates.MaybeSpec` | src/seq.ts:86 | `maybe(q)` yields one pair at the node; absent exactly when `q` yields nothing, otherwise the head of `values(q)`'s list |
| `Aggregates.MaybeClosest` | src/seq.ts:78-86 | `maybe(closest(css))` yields one pair at the node valued exactly with what the DOM's `closest` returns |
| `Aggregates.MaybeFirst` | src/seq.ts:82-86 | first wins: `maybe(q)` equals `maybe(first(q))` |
| `Destructuring.FromEntriesKeys` | src/seq.ts:99-101 | `Object.fromEntries` has exactly the entries' keys |
| `Destructuring.FromEntriesLast` | src/seq.ts:99-101 | `Object.fromEntries` maps each key to the value of its last entry |
| `Destructuring.AnchoredSpec` | src/seq.ts:93-96 | a re-anchored field yields, at any context, the one pair `(node, value list of the field at node)` |
| `Destructuring.SequenceOfSingles` | src/seq.ts:93 | sequencing queries that each yield one pair at `node` whatever the context yields one pair at `node` with all their values in order |
| `Destructuring.DirectRecordSpec` | src/seq.ts:99-101 | the record read directly has exactly the struct's field names, each mapped to its own query's value list at the node (last entry wins) |
| `Destructuring.DestructAllIsDirect` | src/seq.ts:88-105 | `destructAll(t)` at `n` is the one pair `(n, record)` with each field name paired with that field's value list computed at `n` |
| `Destructuring.DestructAllSpec` | src/seq.ts:88-105 | `destructAll(t)` yields one pair at the node; the record has exactly the struct's field names, each mapped to its own query's values at the node |
| `Destructuring.DestructAllOrderFree` | src/seq.ts:88-105 | with distinct field names, reordering the struct's entries does not change the result |
| `Destructuring.DestructSpec` | src/seq.ts:107-110 | `destruct(t)` yields one pair at the node with the same field names; each field holds its first value or absent, which is what `maybe` gives |

## Left out

- `parse` (src/seq.ts:112-117): it builds a tree with the external XML parser and its error handlers. Parsing and error policy are foreign I/O; the rest of it ("run at the root, drop the nodes") is `ValueList`.
- Exceptions from the DOM: an invalid selector makes `querySelectorAll` or `closest` throw (src/seq.ts:76, 78), and the exception escapes through every combinator unchanged. The model takes every DOM call to return a value, so the laws proved here hold only for queries that return; for a query that throws, for example `bind(select("["), _ => empty)`, they say nothing.
- The DOM: `querySelectorAll`, `closest`, `textContent`, `trim`, `toString`, `getAttribute` and `nodeType` are uninterpreted fields of `Dom<N>`. Selector matching, document order and text trimming are not specified.
- The higher-kinded machinery of the `@jsoldi/hkt` library (`KRoot`, `KSeq`, `monadPlus`, `pipe`, `object.fmap`). The combinators are defined directly; `sequence`, `maybe.fromList` and `array.first` are given the readings stated above.
- The TypeScript record types `Struct`, `Destruct` and `DestructAll` (src/seq.ts:12-14): every field of a modelled struct has the same value type, and a record is a `map` from field name to value.
- `Destructuring.DestructAll`: the struct is given as its string-keyed entries, already in `Object.entries` order. Symbol keys, which `Object.entries` skips, and the engine's ordering of integer-like keys are not modelled.
- `Aggregates.Take`: the bound is an integer. A fractional, `NaN` or infinite JavaScript number is not modelled.
- `Nodes.Text`: `null` and `undefined` results are both `None`.
