/** Context moves, node accessors and selection (src/seq.ts:68-80). The tree
    is reached only through a `Dom` record of capabilities: what the DOM
    library provides is not specified here, and in particular selector
    matching stays uninterpreted. */
module Nodes {
  import opened Options
  import opened Lists
  import opened Queries

  /** The DOM's `nodeType` of an element. */
  const ELEMENT_NODE := 1

  /** The read-only capabilities of the markup tree that the queries use. */
  datatype Dom<!N> = Dom(
    parentElement: N -> Option<N>,               // `node.parentElement`, absent at the root
    nodeType: N -> int,                          // `node.nodeType`
    textContent: N -> Option<string>,            // `node.textContent`
    trim: string -> string,                      // `String.prototype.trim`
    serialize: N -> string,                      // `node.toString()`
    getAttribute: (N, string) -> Option<string>, // `node.getAttribute(name)`
    querySelectorAll: (N, string) -> seq<N>,     // matching descendants, in document order
    closest: (N, string) -> Option<N>)           // nearest matching ancestor, self included

  /** Exactly one pair, and it sits at the context node `n`. */
  ghost predicate OneAt<N, T>(q: Query<N, T>, n: N)
  {
    |q(n)| == 1 && q(n)[0].0 == n
  }

  /** Zero pairs when `o` is absent, else the one pair (m, m) for `o == Some(m)`. */
  ghost predicate YieldsOption<N>(r: seq<(N, N)>, o: Option<N>)
  {
    match o
    case None => r == []
    case Some(m) => r == [(m, m)]
  }

  /** Pairs a value with a fixed node. */
  function At<N, A>(n: N): A -> (N, A)
  {
    (a: A) => (n, a)
  }

  /** Pairs a node with itself. */
  function Self<N>(): N -> (N, N)
  {
    (m: N) => (m, m)
  }

  /** `fromValues(fun)`: one pair per value of `fun(node)`, all at the context node. */
  function FromValues<N, A>(fun: N -> seq<A>): Query<N, A>
  {
    n => MapList(fun(n), At(n))
  }

  /** `fromNodes(fun)`: one pair per node of `fun(node)`, as both node and value. */
  function FromNodes<N>(fun: N -> seq<N>): Query<N, N>
  {
    n => MapList(fun(n), Self())
  }

  /** `gather(f)`: the single pair (node, f(node)). */
  function Gather<N, T>(f: N -> T): Query<N, T>
  {
    n => [(n, f(n))]
  }

  /** `node.textContent?.trim()`: absent when there is no text content. */
  function TrimmedText<N>(dom: Dom<N>, n: N): Option<string>
  {
    match dom.textContent(n)
    case None => None
    case Some(s) => Some(dom.trim(s))
  }

  /** `text`: the trimmed text content of the context node. */
  function Text<N>(dom: Dom<N>): Query<N, Option<string>>
  {
    n => [(n, TrimmedText(dom, n))]
  }

  /** `html`: the serialised markup of the context node. */
  function Html<N>(dom: Dom<N>): Query<N, string>
  {
    n => [(n, dom.serialize(n))]
  }

  /** `href`: the context node's `href` attribute, or absent. */
  function Href<N>(dom: Dom<N>): Query<N, Option<string>>
  {
    n => [(n, dom.getAttribute(n, "href"))]
  }

  /** `parentElement`: move to the parent element, nothing at the root. */
  function ParentElement<N>(dom: Dom<N>): Query<N, N>
  {
    n =>
      match dom.parentElement(n)
      case Some(p) => [(p, p)]
      case None => []
  }

  /** `closestElement`: the node itself when it is an element, else its parent element. */
  function ClosestElement<N>(dom: Dom<N>): Query<N, N>
  {
    n =>
      var elem := if dom.nodeType(n) == ELEMENT_NODE then Some(n) else dom.parentElement(n);
      match elem
      case Some(e) => [(e, e)]
      case None => []
  }

  /** `select(css)`: every matching descendant, in document order. */
  function Select<N>(dom: Dom<N>, css: string): Query<N, N>
  {
    FromNodes(n => dom.querySelectorAll(n, css))
  }

  /** `selectText(css)`: the trimmed text of every matching descendant. */
  function SelectText<N>(dom: Dom<N>, css: string): Query<N, Option<string>>
  {
    Bind(Select(dom, css), (_: N) => Text(dom))
  }

  /** `closest(css)`: the nearest matching ancestor (self included), if any. */
  function Closest<N>(dom: Dom<N>, css: string): Query<N, N>
  {
    FromNodes(n => ToList(dom.closest(n, css)))
  }

  /** `get`: the context node, as both node and value. */
  function Get<N>(): Query<N, N>
  {
    n => [(n, n)]
  }

  /** `set(node)`: ignores the context and yields `node` as both node and value. */
  function Set<N>(node: N): Query<N, N>
  {
    _ => [(node, node)]
  }

  // ---------------------------------------------------------------------
  // Lifting lists and functions of the node

  /** `fromValues` yields one pair per value, in order, every one at the context node. */
  lemma FromValuesSpec<N, A>(fun: N -> seq<A>, n: N)
    ensures |FromValues(fun)(n)| == |fun(n)|
    ensures forall i :: 0 <= i < |fun(n)| ==> FromValues(fun)(n)[i] == (n, fun(n)[i])
  {
  }

  /** `fromNodes` yields one pair per node, in order, each node as its own value. */
  lemma FromNodesSpec<N>(fun: N -> seq<N>, n: N)
    ensures |FromNodes(fun)(n)| == |fun(n)|
    ensures forall i :: 0 <= i < |fun(n)| ==> FromNodes(fun)(n)[i] == (fun(n)[i], fun(n)[i])
  {
  }

  /** `gather(f)` is `map(get, f)`: one pair at the context node, valued `f(node)`. */
  lemma GatherIsMapGet<N, T>(f: N -> T, n: N)
    ensures OneAt(Gather(f), n) && Gather(f)(n)[0].1 == f(n)
    ensures Gather(f)(n) == Map(Get(), f)(n)
  {
  }

  // ---------------------------------------------------------------------
  // Accessors

  /** `text` yields one pair at the node; its value is absent exactly when the
      node has no text content, and is the trimmed content otherwise. */
  lemma TextSpec<N>(dom: Dom<N>, n: N)
    ensures OneAt(Text(dom), n)
    ensures Text(dom)(n)[0].1.None? <==> dom.textContent(n).None?
    ensures dom.textContent(n).Some? ==> Text(dom)(n)[0].1 == Some(dom.trim(dom.textContent(n).value))
  {
  }

  /** `html` yields one pair at the node, valued with its serialisation. */
  lemma HtmlSpec<N>(dom: Dom<N>, n: N)
    ensures OneAt(Html(dom), n) && Html(dom)(n)[0].1 == dom.serialize(n)
  {
  }

  /** `href` yields one pair at the node, valued with its `href` attribute or absent. */
  lemma HrefSpec<N>(dom: Dom<N>, n: N)
    ensures OneAt(Href(dom), n) && Href(dom)(n)[0].1 == dom.getAttribute(n, "href")
  {
  }

  // ---------------------------------------------------------------------
  // Context moves

  /** `get` passes the context on as the value: `bind(get, f)` runs `f(n)` at `n`. */
  lemma GetSpec<N, B>(f: N -> Query<N, B>, n: N)
    ensures Get()(n) == [(n, n)]
    ensures Bind(Get(), f)(n) == f(n)(n)
  {
    FlatMapSingle((n, n), Step(f));
  }

  /** `set(m)` ignores the context, and a query bound behind it runs at `m`:
      this is the re-anchoring used by destructuring. */
  lemma SetAnchors<N, B>(m: N, q: Query<N, B>, n1: N, n2: N)
    ensures Set(m)(n1) == Set(m)(n2) == [(m, m)]
    ensures Bind(Set(m), (_: N) => q)(n1) == q(m)
  {
    FlatMapSingle((m, m), Step((_: N) => q));
  }

  /** `parentElement` yields at most one pair, and none exactly at the root. */
  lemma ParentElementSpec<N>(dom: Dom<N>, n: N)
    ensures |ParentElement(dom)(n)| <= 1
    ensures ParentElement(dom)(n) == [] <==> dom.parentElement(n).None?
    ensures YieldsOption(ParentElement(dom)(n), dom.parentElement(n))
  {
  }

  /** `closestElement` yields the node itself when it is an element, otherwise
      its parent element, otherwise nothing. */
  lemma ClosestElementSpec<N>(dom: Dom<N>, n: N)
    ensures |ClosestElement(dom)(n)| <= 1
    ensures dom.nodeType(n) == ELEMENT_NODE ==> ClosestElement(dom)(n) == [(n, n)]
    ensures dom.nodeType(n) != ELEMENT_NODE ==> ClosestElement(dom)(n) == ParentElement(dom)(n)
  {
  }

  // ---------------------------------------------------------------------
  // Selection

  /** `select(css)` yields one pair per matching descendant, in document order,
      each match as both node and value. */
  lemma SelectSpec<N>(dom: Dom<N>, css: string, n: N)
    ensures |Select(dom, css)(n)| == |dom.querySelectorAll(n, css)|
    ensures forall i :: 0 <= i < |dom.querySelectorAll(n, css)| ==>
      Select(dom, css)(n)[i] == (dom.querySelectorAll(n, css)[i], dom.querySelectorAll(n, css)[i])
  {
    assert Select(dom, css)(n) == MapList(dom.querySelectorAll(n, css), Self());
  }

  /** `selectText(css)` yields, in document order, each match paired with its trimmed text. */
  lemma SelectTextSpec<N>(dom: Dom<N>, css: string, n: N)
    ensures |SelectText(dom, css)(n)| == |dom.querySelectorAll(n, css)|
    ensures forall i :: 0 <= i < |dom.querySelectorAll(n, css)| ==>
      var m := dom.querySelectorAll(n, css)[i];
      SelectText(dom, css)(n)[i] == (m, TrimmedText(dom, m))
  {
    var toText := Step((_: N) => Text(dom));
    var g := (p: (N, N)) => (p.0, TrimmedText(dom, p.0));
    forall p: (N, N)
      ensures toText(p) == [g(p)]
    {
      assert toText(p) == Text(dom)(p.0);
    }
    FlatMapSingletons(Select(dom, css)(n), toText, g);
    SelectSpec(dom, css, n);
  }

  /** `closest(css)` yields at most one pair: the nearest match, or nothing. */
  lemma ClosestSpec<N>(dom: Dom<N>, css: string, n: N)
    ensures |Closest(dom, css)(n)| <= 1
    ensures Closest(dom, css)(n) == [] <==> dom.closest(n, css).None?
    ensures YieldsOption(Closest(dom, css)(n), dom.closest(n, css))
  {
    assert Closest(dom, css)(n) == MapList(ToList(dom.closest(n, css)), Self());
  }
}
