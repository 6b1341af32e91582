/** The page the plugin works on, with the DOM and jQuery primitives it uses
    (attribute reads, `#id` and `input#id` lookups, `prev`/`next`), reduced
    to a flat list of sibling elements in document order. */
module Dom {
  import opened JsValues

  /** Element identity: what a jQuery collection holds on to. */
  type Uid = nat

  /** One element. `id`, `name` and `title` are DOM properties, '' when the
      attribute is absent (which is what jQuery 1.3's `attr` returns for them).
      `hintFor` is an attribute that may be absent. `attrs` holds the other
      attributes a hint may be read from. `size` and `tabIndex` are the
      properties, which always have a value. `color` and `bgImage` are inline
      styles ('' when unset). B and F are the bound blur and focus handlers. */
  datatype Node<B, F> = Node(
    uid: Uid,
    tag: string,
    inputType: string,
    id: string,
    name: string,
    title: string,
    hintFor: Option<string>,
    attrs: map<string, string>,
    value: string,
    visible: bool,
    classes: set<string>,
    size: int,
    tabIndex: int,
    color: string,
    bgImage: string,
    blurHandlers: seq<B>,
    focusHandlers: seq<F>)

  /** The whole page: its elements and the next unused identity. */
  datatype Doc<B, F> = Doc(nodes: seq<Node<B, F>>, next: Uid)

  /** DOM defaults of a freshly parsed `<input>`. */
  const DefaultSize: int := 20
  const DefaultTabIndex: int := 0

  /** Prefix of every shadow field's id. */
  const ShadowPrefix: string := "ztInputHint_"

  /** `<input type="text" value="" style="display: none;" ...>` with the given
      id ('' for none) and `hintFor` attribute, as the plugin parses it. */
  function NewHiddenInput<B, F>(uid: Uid, id: string, hintFor: Option<string>): (n: Node<B, F>)
    ensures n.uid == uid && n.id == id && n.hintFor == hintFor
    ensures n.tag == "input" && n.inputType == "text" && n.value == "" && !n.visible
    ensures n.blurHandlers == [] && n.focusHandlers == []
  {
    Node(uid, "input", "text", id, "", "", hintFor, map[], "", false, {}, DefaultSize, DefaultTabIndex, "", "", [], [])
  }

  /** `is('input:text, input:password')`. */
  predicate IsTextInput<B, F>(n: Node<B, F>)
  {
    n.tag == "input" && (n.inputType == "text" || n.inputType == "password")
  }

  /** `attr('id') || attr('name')`: what links a field to its shadow. */
  function Key<B, F>(n: Node<B, F>): (k: string)
    ensures n.id != "" ==> k == n.id
    ensures n.id == "" ==> k == n.name
  {
    if n.id != "" then n.id else n.name
  }

  /** `'ztInputHint_' + (attr('id') || attr('name'))`. It is never empty and
      never the element's own id. */
  function ShadowId<B, F>(n: Node<B, F>): (r: string)
    ensures |r| == |ShadowPrefix| + |Key(n)|
    ensures r != n.id
  {
    ShadowPrefix + Key(n)
  }

  /** `attr(name)` for the attribute a hint is read from ('' when absent). An
      attribute name set to `false` reads nothing. */
  function Attr<B, F>(n: Node<B, F>, name: OptVal): (r: string)
    ensures name == Str("title") ==> r == n.title
    ensures name.Str? && name.s !in {"id", "name", "title", "value", "hintFor"} ==>
              r == (if name.s in n.attrs then n.attrs[name.s] else "")
    ensures name.Off? ==> r == ""
  {
    match name
    case Off => ""
    case Str(a) =>
      if a == "id" then n.id
      else if a == "name" then n.name
      else if a == "title" then n.title
      else if a == "value" then n.value
      else if a == "hintFor" then (match n.hintFor case Some(h) => h case None => "")
      else if a in n.attrs then n.attrs[a]
      else ""
  }

  function Show<B, F>(n: Node<B, F>): Node<B, F> { n.(visible := true) }

  function Hide<B, F>(n: Node<B, F>): Node<B, F> { n.(visible := false) }

  /** `document.getElementById(x)`: the first element in page order whose id
      is `x`; none for the empty id. */
  function FirstById<B, F>(nodes: seq<Node<B, F>>, x: string): (r: Option<nat>)
    ensures r.Some? ==> x != "" && r.value < |nodes| && nodes[r.value].id == x
    ensures r.Some? ==> forall k :: 0 <= k < r.value ==> nodes[k].id != x
    ensures r.None? ==> x == "" || forall k :: 0 <= k < |nodes| ==> nodes[k].id != x
  {
    if x == "" then None else FirstByIdFrom(nodes, x, 0)
  }

  /** The first element at or after `from` whose id is `x`. */
  function FirstByIdFrom<B, F>(nodes: seq<Node<B, F>>, x: string, from: nat): (r: Option<nat>)
    ensures r.Some? ==> from <= r.value < |nodes| && nodes[r.value].id == x
    ensures r.Some? ==> forall k :: from <= k < r.value ==> nodes[k].id != x
    ensures r.None? ==> forall k :: from <= k < |nodes| ==> nodes[k].id != x
    decreases |nodes| - from
  {
    if from >= |nodes| then None
    else if nodes[from].id == x then Some(from)
    else FirstByIdFrom(nodes, x, from + 1)
  }

  /** `$('input#' + x)`: the element with id `x`, kept only when it is an input. */
  function FindInputById<B, F>(nodes: seq<Node<B, F>>, x: string): (r: Option<nat>)
    ensures r.Some? ==> FirstById(nodes, x) == r && nodes[r.value].tag == "input"
    ensures r.None? ==> FirstById(nodes, x).None? || nodes[FirstById(nodes, x).value].tag != "input"
  {
    match FirstById(nodes, x)
    case Some(k) => if nodes[k].tag == "input" then Some(k) else None
    case None => None
  }

  /** `prev('input:first')`: the preceding sibling when it is an input. */
  function PrevInput<B, F>(nodes: seq<Node<B, F>>, i: nat): (r: Option<nat>)
    ensures r.Some? ==> 0 < i <= |nodes| && r.value == i - 1 && nodes[i - 1].tag == "input"
    ensures r.None? ==> i == 0 || i > |nodes| || nodes[i - 1].tag != "input"
  {
    if 0 < i <= |nodes| && nodes[i - 1].tag == "input" then Some(i - 1) else None
  }

  /** `next('input:first')`: the following sibling when it is an input. */
  function NextInput<B, F>(nodes: seq<Node<B, F>>, i: nat): (r: Option<nat>)
    ensures r.Some? ==> i + 1 < |nodes| && r.value == i + 1 && nodes[i + 1].tag == "input"
    ensures r.None? ==> i + 1 >= |nodes| || nodes[i + 1].tag != "input"
  {
    if i + 1 < |nodes| && nodes[i + 1].tag == "input" then Some(i + 1) else None
  }

  /** Where the element a collection refers to sits on the page. */
  function IndexOf<B, F>(nodes: seq<Node<B, F>>, u: Uid): (r: Option<nat>)
    ensures r.Some? ==> r.value < |nodes| && nodes[r.value].uid == u
    ensures r.Some? ==> forall k :: 0 <= k < r.value ==> nodes[k].uid != u
    ensures r.None? ==> forall k :: 0 <= k < |nodes| ==> nodes[k].uid != u
  {
    IndexFrom(nodes, u, 0)
  }

  /** The first element at or after `from` whose identity is `u`. */
  function IndexFrom<B, F>(nodes: seq<Node<B, F>>, u: Uid, from: nat): (r: Option<nat>)
    ensures r.Some? ==> from <= r.value < |nodes| && nodes[r.value].uid == u
    ensures r.Some? ==> forall k :: from <= k < r.value ==> nodes[k].uid != u
    ensures r.None? ==> forall k :: from <= k < |nodes| ==> nodes[k].uid != u
    decreases |nodes| - from
  {
    if from >= |nodes| then None
    else if nodes[from].uid == u then Some(from)
    else IndexFrom(nodes, u, from + 1)
  }

  /** Every element of the collection is on the page. */
  predicate InPage<B, F>(nodes: seq<Node<B, F>>, coll: seq<Uid>)
  {
    forall u :: u in coll ==> IndexOf(nodes, u).Some?
  }

  /** Page invariant: identities are distinct and below `next`. */
  ghost predicate WellFormed<B, F>(d: Doc<B, F>)
  {
    && (forall k :: 0 <= k < |d.nodes| ==> d.nodes[k].uid < d.next)
    && (forall j, k :: 0 <= j < k < |d.nodes| ==> d.nodes[j].uid != d.nodes[k].uid)
  }

  /** `b` differs from `a` at most in what event handlers change: visibility,
      classes and background image. */
  ghost predicate Restyled<B, F>(a: seq<Node<B, F>>, b: seq<Node<B, F>>)
  {
    |a| == |b| &&
    forall k :: 0 <= k < |a| ==>
      b[k] == a[k].(visible := b[k].visible, classes := b[k].classes, bgImage := b[k].bgImage)
  }

  /** The parts of an element that no operation of the plugin changes. */
  ghost predicate SameIdentity<B, F>(a: Node<B, F>, b: Node<B, F>)
  {
    a.uid == b.uid && a.tag == b.tag && a.inputType == b.inputType &&
    a.id == b.id && a.name == b.name && a.hintFor == b.hintFor
  }

  /** `b` is `a` element for element, up to what the plugin may change. */
  ghost predicate SameIdentities<B, F>(a: seq<Node<B, F>>, b: seq<Node<B, F>>)
  {
    |a| == |b| && forall k :: 0 <= k < |a| ==> SameIdentity(a[k], b[k])
  }

  /** Every element of `a` is still in `b`, with the same identity. */
  ghost predicate Keeps<B, F>(a: seq<Node<B, F>>, b: seq<Node<B, F>>)
  {
    forall u :: IndexOf(a, u).Some? ==>
      IndexOf(b, u).Some? && SameIdentity(a[IndexOf(a, u).value], b[IndexOf(b, u).value])
  }

  /** The page as a mutable object: the plugin inserts, removes and updates
      its elements in place. */
  class Page<B, F> {
    var nodes: seq<Node<B, F>>
    var next: Uid

    ghost predicate Valid()
      reads this
    {
      WellFormed(Doc(nodes, next))
    }

    function Snapshot(): (d: Doc<B, F>)
      reads this
      ensures d.nodes == nodes && d.next == next
    {
      Doc(nodes, next)
    }

    constructor (initial: seq<Node<B, F>>, firstFree: Uid)
      requires WellFormed(Doc(initial, firstFree))
      ensures Valid() && nodes == initial && next == firstFree
    {
      nodes := initial;
      next := firstFree;
    }
  }

  /** Lookups by identity see only the identity column. */
  lemma IndexOfSameUids<B, F>(a: seq<Node<B, F>>, b: seq<Node<B, F>>, u: Uid)
    requires |a| == |b| && forall k :: 0 <= k < |a| ==> a[k].uid == b[k].uid
    ensures IndexOf(a, u) == IndexOf(b, u)
  {
  }

  /** On a well-formed page an element is found by identity where it is. */
  lemma IndexOfAt<B, F>(d: Doc<B, F>, k: nat)
    requires WellFormed(d) && k < |d.nodes|
    ensures IndexOf(d.nodes, d.nodes[k].uid) == Some(k)
  {
  }

  /** Lookups by id see only the id column. */
  lemma FirstByIdSameIds<B, F>(a: seq<Node<B, F>>, b: seq<Node<B, F>>, x: string)
    requires |a| == |b| && forall k :: 0 <= k < |a| ==> a[k].id == b[k].id
    ensures FirstById(a, x) == FirstById(b, x)
  {
  }

  /** Restyling changes neither an element's shadow id nor what it finds. */
  lemma RestyledShadowLookup<B, F>(a: seq<Node<B, F>>, b: seq<Node<B, F>>, j: nat)
    requires Restyled(a, b) && j < |a|
    ensures FirstById(b, ShadowId(b[j])) == FirstById(a, ShadowId(a[j]))
  {
    assert ShadowId(b[j]) == ShadowId(a[j]);
    FirstByIdSameIds(a, b, ShadowId(a[j]));
  }

  /** An element whose id is `x`, with no earlier one, is what `#x` finds. */
  lemma FirstByIdAt<B, F>(nodes: seq<Node<B, F>>, x: string, i: nat)
    requires i < |nodes| && x != "" && nodes[i].id == x
    requires forall k :: 0 <= k < i ==> nodes[k].id != x
    ensures FirstById(nodes, x) == Some(i)
  {
  }

  /** Restyling keeps every element and its identity, and the page invariant. */
  lemma RestyledKeeps<B, F>(a: seq<Node<B, F>>, b: seq<Node<B, F>>, next: Uid)
    requires Restyled(a, b)
    ensures Keeps(a, b)
    ensures WellFormed(Doc(a, next)) ==> WellFormed(Doc(b, next))
  {
    forall u | IndexOf(a, u).Some?
      ensures IndexOf(b, u).Some? && SameIdentity(a[IndexOf(a, u).value], b[IndexOf(b, u).value])
    {
      IndexOfSameUids(a, b, u);
    }
  }

  /** Changing elements in place keeps every element, its position and the
      page invariant. */
  lemma SameIdentitiesKeeps<B, F>(a: seq<Node<B, F>>, b: seq<Node<B, F>>, next: Uid)
    requires SameIdentities(a, b)
    ensures Keeps(a, b)
    ensures forall u :: IndexOf(b, u) == IndexOf(a, u)
    ensures WellFormed(Doc(a, next)) ==> WellFormed(Doc(b, next))
  {
    forall u
      ensures IndexOf(b, u) == IndexOf(a, u)
    {
      IndexOfSameUids(a, b, u);
    }
  }

  /** A collection on page `a` is still on a page that keeps `a`'s elements. */
  lemma KeepsInPage<B, F>(a: seq<Node<B, F>>, b: seq<Node<B, F>>, coll: seq<Uid>)
    requires Keeps(a, b) && InPage(a, coll)
    ensures InPage(b, coll)
  {
  }

  /** An element kept from `a` to `b` is still a text input exactly when
      it was one. */
  lemma KeepsTextInput<B, F>(a: seq<Node<B, F>>, b: seq<Node<B, F>>, coll: seq<Uid>, j: nat)
    requires Keeps(a, b) && InPage(a, coll) && j < |coll|
    ensures InPage(b, coll)
    ensures IsTextInput(b[IndexOf(b, coll[j]).value]) == IsTextInput(a[IndexOf(a, coll[j]).value])
  {
    KeepsInPage(a, b, coll);
    assert IndexOf(a, coll[j]).Some?;
  }

  lemma KeepsTransitive<B, F>(a: seq<Node<B, F>>, b: seq<Node<B, F>>, c: seq<Node<B, F>>)
    requires Keeps(a, b) && Keeps(b, c)
    ensures Keeps(a, c)
  {
  }

  /** Inserting a fresh element keeps every other element. */
  lemma InsertKeeps<B, F>(d: Doc<B, F>, i: nat, x: Node<B, F>)
    requires WellFormed(d) && i <= |d.nodes| && x.uid == d.next
    ensures Keeps(d.nodes, d.nodes[..i] + [x] + d.nodes[i..])
  {
    var a := d.nodes;
    var b := a[..i] + [x] + a[i..];
    forall u | IndexOf(a, u).Some?
      ensures IndexOf(b, u).Some? && SameIdentity(a[IndexOf(a, u).value], b[IndexOf(b, u).value])
    {
      var k := IndexOf(a, u).value;
      var k' := if k < i then k else k + 1;
      assert b[k'] == a[k];
    }
  }

  /** Inserting an element with the next identity keeps the page invariant. */
  lemma InsertWellFormed<B, F>(d: Doc<B, F>, i: nat, x: Node<B, F>)
    requires WellFormed(d) && i <= |d.nodes| && x.uid == d.next
    ensures WellFormed(Doc(d.nodes[..i] + [x] + d.nodes[i..], d.next + 1))
  {
    var a := d.nodes;
    var b := a[..i] + [x] + a[i..];
    assert forall k :: 0 <= k < |b| ==> b[k] == (if k < i then a[k] else if k == i then x else a[k - 1]);
  }
  /** Inserting a fresh element and then changing elements only in place
      keeps the page invariant and every element. */
  lemma InsertThenInPlace<B, F>(d: Doc<B, F>, i: nat, x: Node<B, F>, r: seq<Node<B, F>>)
    requires WellFormed(d) && i <= |d.nodes| && x.uid == d.next
    requires SameIdentities(d.nodes[..i] + [x] + d.nodes[i..], r)
    ensures WellFormed(Doc(r, d.next + 1)) && Keeps(d.nodes, r)
  {
    var b := d.nodes[..i] + [x] + d.nodes[i..];
    InsertKeeps(d, i, x);
    InsertWellFormed(d, i, x);
    SameIdentitiesKeeps(b, r, d.next + 1);
    KeepsTransitive(d.nodes, b, r);
  }

}
