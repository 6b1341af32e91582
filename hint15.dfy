/** Revision 1.5 of the plugin: module-level options shared by every call,
    shadow fields linked to their target by id and `hintFor`, and dispatch of
    the method names `init`, `destroyHint` and `setHint`. */
module HintV15 {
  import opened JsValues
  import opened Dom
  import Toggle

  /** The module-level `ztinputhintOptions` object. */
  datatype Options = Options(
    hint: OptVal,
    mode: OptVal,
    sourceAttrib: OptVal,
    hintColor: OptVal,
    hintClass: OptVal,
    defaultClass: OptVal,
    hintBG: OptVal,
    defaultBG: OptVal)
  {
    /** The option stored under a property name. */
    function Get(name: string): OptVal
    {
      if name == "hint" then hint
      else if name == "mode" then mode
      else if name == "sourceAttrib" then sourceAttrib
      else if name == "hintColor" then hintColor
      else if name == "hintClass" then hintClass
      else if name == "defaultClass" then defaultClass
      else if name == "hintBG" then hintBG
      else if name == "defaultBG" then defaultBG
      else Off
    }
  }

  const OptionNames: set<string> :=
    {"hint", "mode", "sourceAttrib", "hintColor", "hintClass", "defaultClass", "hintBG", "defaultBG"}

  /** The options before the first call. */
  const Defaults: Options :=
    Options(Off, Str("field"), Str("title"), Str("#BBBBBB"), Off, Off, Off, Off)

  function Override(fields: map<string, OptVal>, name: string, current: OptVal): OptVal
  {
    if name in fields then fields[name] else current
  }

  /** `$.extend(ztinputhintOptions, fields)`: every property the object has
      overwrites the option of that name. */
  function Extend(o: Options, fields: map<string, OptVal>): Options
  {
    Options(
      Override(fields, "hint", o.hint),
      Override(fields, "mode", o.mode),
      Override(fields, "sourceAttrib", o.sourceAttrib),
      Override(fields, "hintColor", o.hintColor),
      Override(fields, "hintClass", o.hintClass),
      Override(fields, "defaultClass", o.defaultClass),
      Override(fields, "hintBG", o.hintBG),
      Override(fields, "defaultBG", o.defaultBG))
  }

  /** What `init` does to the shared options: an object is merged in, a
      non-empty string becomes the hint, anything else changes nothing. Every
      option the argument does not supply keeps the value earlier calls left. */
  function Merge(o: Options, arg: Arg): (r: Options)
    ensures forall name :: name in OptionNames ==>
      r.Get(name) == (if arg.Settings? && name in arg.fields then arg.fields[name]
                      else if arg.Text? && arg.s != "" && name == "hint" then Str(arg.s)
                      else o.Get(name))
  {
    match arg
    case Settings(fields) => Extend(o, fields)
    case Text(s) => if s != "" then o.(hint := Str(s)) else o
    case Absent => o
  }

  /** What a call to the plugin turns into. */
  datatype Request =
    | InitRequest(options: Arg)
    | DestroyRequest
    | SetHintRequest(hint: Arg)
    | NativeRequest(name: string)

  /** The methods the plugin's method table defines. */
  const MethodNames: set<string> := {"init", "destroyHint", "setHint"}

  /** Names the method table inherits from `Object.prototype` in every
      engine; looking one of them up finds a built-in function, not hint text. */
  const InheritedNames: set<string> :=
    {"constructor", "toString", "toLocaleString", "valueOf", "hasOwnProperty",
     "isPrototypeOf", "propertyIsEnumerable"}

  /** `$.fn.ztinputhint(method, ...)`: a name found in the method table
      selects that method with the remaining arguments; any other first
      argument is passed to `init`. */
  function Route(first: Arg, second: Arg): (r: Request)
    ensures r.DestroyRequest? <==> first == Text("destroyHint")
    ensures r.SetHintRequest? <==> first == Text("setHint")
    ensures r.SetHintRequest? ==> r.hint == second
    ensures r.NativeRequest? <==> first.Text? && first.s in InheritedNames
    ensures first == Text("init") ==> r == InitRequest(second)
    ensures !(first.Text? && (first.s in MethodNames || first.s in InheritedNames)) ==> r == InitRequest(first)
  {
    match first
    case Text(s) =>
      if s == "init" then InitRequest(second)
      else if s == "destroyHint" then DestroyRequest
      else if s == "setHint" then SetHintRequest(second)
      else if s in InheritedNames then NativeRequest(s)
      else InitRequest(first)
    case _ => InitRequest(first)
  }

  /** Handlers the plugin binds. They read the shared options when they run. */
  datatype BlurHandler = FieldBlur | ClassBlur | BackgroundBlur
  datatype FocusHandler = FieldFocus | ClassFocus | BackgroundFocus

  type Element = Node<BlurHandler, FocusHandler>

  /** `attr('hintFor')` as text: a missing attribute reads as `undefined`,
      which the selector it is pasted into spells out. */
  function HintForText(n: Element): string
  {
    match n.hintFor
    case Some(k) => k
    case None => "undefined"
  }

  /** Field-mode focus handler of a shadow: hide the shadow, then show the
      input whose id is the shadow's `hintFor`. */
  function FieldOnFocus(nodes: seq<Element>, j: nat): (r: seq<Element>)
    requires j < |nodes|
    ensures Restyled(nodes, r)
  {
    var hidden := nodes[j := Hide(nodes[j])];
    match FindInputById(hidden, HintForText(hidden[j]))
    case Some(t) => hidden[t := Show(hidden[t])]
    case None => hidden
  }

  /** Field-mode blur handler of a target: when its value is empty, show the
      element whose id is its shadow id, then hide the target. Nothing but
      the target and that element changes. */
  function FieldOnBlur(nodes: seq<Element>, i: nat): (r: seq<Element>)
    requires i < |nodes|
    ensures Restyled(nodes, r)
    ensures forall k :: 0 <= k < |nodes| && k != i && FirstById(nodes, ShadowId(nodes[i])) != Some(k) ==> r[k] == nodes[k]
  {
    if nodes[i].value == "" then
      var shown := match FirstById(nodes, ShadowId(nodes[i]))
        case Some(s) => nodes[s := Show(nodes[s])]
        case None => nodes;
      shown[i := Hide(shown[i])]
    else nodes
  }

  /** One blur handler bound on element `i`, run under options `o`. */
  function OnBlur(nodes: seq<Element>, o: Options, i: nat, h: BlurHandler): (r: seq<Element>)
    requires i < |nodes|
    ensures Restyled(nodes, r)
  {
    match h
    case FieldBlur => FieldOnBlur(nodes, i)
    case ClassBlur =>
      nodes[i := nodes[i].(classes := Toggle.ClassesOnBlur(nodes[i].classes, nodes[i].value, o.hintClass, o.defaultClass))]
    case BackgroundBlur =>
      nodes[i := nodes[i].(bgImage := Toggle.BackgroundOnBlur(nodes[i].bgImage, nodes[i].value, o.hintBG))]
  }

  /** One focus handler bound on element `j`, run under options `o`. */
  function OnFocus(nodes: seq<Element>, o: Options, j: nat, h: FocusHandler): (r: seq<Element>)
    requires j < |nodes|
    ensures Restyled(nodes, r)
  {
    match h
    case FieldFocus => FieldOnFocus(nodes, j)
    case ClassFocus =>
      nodes[j := nodes[j].(classes := Toggle.ClassesOnFocus(nodes[j].classes, o.hintClass, o.defaultClass))]
    case BackgroundFocus =>
      nodes[j := nodes[j].(bgImage := Toggle.BackgroundOnFocus(o.defaultBG))]
  }

  /** The blur handlers `hs` of element `i`, run in the order they were bound. */
  function RunBlur(nodes: seq<Element>, o: Options, i: nat, hs: seq<BlurHandler>): (r: seq<Element>)
    requires i < |nodes|
    ensures Restyled(nodes, r)
    decreases |hs|
  {
    if hs == [] then nodes else RunBlur(OnBlur(nodes, o, i, hs[0]), o, i, hs[1..])
  }

  /** The focus handlers `hs` of element `j`, run in the order they were bound. */
  function RunFocus(nodes: seq<Element>, o: Options, j: nat, hs: seq<FocusHandler>): (r: seq<Element>)
    requires j < |nodes|
    ensures Restyled(nodes, r)
    decreases |hs|
  {
    if hs == [] then nodes else RunFocus(OnFocus(nodes, o, j, hs[0]), o, j, hs[1..])
  }

  /** A blur of the element with identity `u`: all its blur handlers run. */
  function BlurEvent(nodes: seq<Element>, o: Options, u: Uid): seq<Element>
  {
    match IndexOf(nodes, u)
    case Some(i) => RunBlur(nodes, o, i, nodes[i].blurHandlers)
    case None => nodes
  }

  /** A focus of the element with identity `u`: all its focus handlers run. */
  function FocusEvent(nodes: seq<Element>, o: Options, u: Uid): seq<Element>
  {
    match IndexOf(nodes, u)
    case Some(j) => RunFocus(nodes, o, j, nodes[j].focusHandlers)
    case None => nodes
  }

  /** `hint || attr(sourceAttrib)`. */
  function TextHint(o: Options, t: Element): string
  {
    if Truthy(o.hint) then o.hint.s else Attr(t, o.sourceAttrib)
  }

  /** `hintClass || attr('class')`. */
  function ClassHint(o: Options, t: Element): set<string>
  {
    if Truthy(o.hintClass) then {o.hintClass.s} else t.classes
  }


  /** What the shadow takes over from its target `t` when there is hint
      text: class, size, tab index, title and value, the hint colour when no
      hint class is set, and the field-mode focus handler. */
  function Decorate(shadow: Element, o: Options, t: Element, text: string): (r: Element)
    ensures SameIdentity(shadow, r)
  {
    shadow.(
      classes := ClassHint(o, t),
      size := t.size,
      tabIndex := t.tabIndex,
      title := text,
      value := text,
      color := if !Truthy(o.hintClass) && Truthy(o.hintColor) then o.hintColor.s else shadow.color,
      focusHandlers := shadow.focusHandlers + [FieldFocus])
  }

  /** `$(shadowHTML).insertBefore(container)`: a hidden input with id
      `ShadowPrefix + key` and `hintFor` `key`, just before the target at `i`. */
  function InsertShadow(nodes: seq<Element>, next: Uid, i: nat): (r: seq<Element>)
    requires i < |nodes|
    ensures |r| == |nodes| + 1 && r[i + 1] == nodes[i]
  {
    var key := Key(nodes[i]);
    nodes[..i] + [NewHiddenInput(next, ShadowPrefix + key, Some(key))] + nodes[i..]
  }

  /** `$('#' + x)` decorated: only the first element with that id is. */
  function DecorateFirst(nodes: seq<Element>, x: string, o: Options, t: Element, text: string): (r: seq<Element>)
    ensures SameIdentities(nodes, r)
  {
    match FirstById(nodes, x)
    case Some(s) => nodes[s := Decorate(nodes[s], o, t, text)]
    case None => nodes
  }

  /** Bind blur handler `h` on element `i`, after those already bound. */
  function BindBlur(nodes: seq<Element>, i: nat, h: BlurHandler): (r: seq<Element>)
    requires i < |nodes|
    ensures SameIdentities(nodes, r)
  {
    nodes[i := nodes[i].(blurHandlers := nodes[i].blurHandlers + [h])]
  }

  /** `container.blur()`: every blur handler of element `i` runs. */
  function FireBlur(nodes: seq<Element>, o: Options, i: nat): (r: seq<Element>)
    requires i < |nodes|
    ensures Restyled(nodes, r)
  {
    RunBlur(nodes, o, i, nodes[i].blurHandlers)
  }

  /** Field mode on the target at `i`: insert a hidden shadow before it; when
      there is hint text, decorate the element the shadow id finds, bind the
      blur handler on the target and fire the target's blur. */
  function FieldInit(d: Doc<BlurHandler, FocusHandler>, o: Options, i: nat): Doc<BlurHandler, FocusHandler>
    requires i < |d.nodes|
  {
    var t := d.nodes[i];
    var inserted := InsertShadow(d.nodes, d.next, i);
    var text := TextHint(o, t);
    if text == "" then Doc(inserted, d.next + 1)
    else
      var bound := BindBlur(DecorateFirst(inserted, ShadowPrefix + Key(t), o, t, text), i + 1, FieldBlur);
      Doc(FireBlur(bound, o, i + 1), d.next + 1)
  }

  /** Class or background mode on the field at `i`: bind the mode's blur
      handler `h` and focus handler `f`, then fire its blur. */
  function ToggleInit(d: Doc<BlurHandler, FocusHandler>, o: Options, i: nat, h: BlurHandler, f: FocusHandler): Doc<BlurHandler, FocusHandler>
    requires i < |d.nodes|
  {
    var t := d.nodes[i];
    var bound := d.nodes[i := t.(blurHandlers := t.blurHandlers + [h], focusHandlers := t.focusHandlers + [f])];
    Doc(FireBlur(bound, o, i), d.next)
  }

  /** One step of `init`'s `each`, by the mode in force; an unknown mode does
      nothing. */
  function InitOne(d: Doc<BlurHandler, FocusHandler>, o: Options, i: nat): Doc<BlurHandler, FocusHandler>
    requires i < |d.nodes|
  {
    if o.mode == Str("field") then FieldInit(d, o, i)
    else if o.mode == Str("class") then ToggleInit(d, o, i, ClassBlur, ClassFocus)
    else if o.mode == Str("background") then ToggleInit(d, o, i, BackgroundBlur, BackgroundFocus)
    else d
  }

  /** After the shadow is inserted, field mode changes elements only in place. */
  lemma FieldInitInPlace(d: Doc<BlurHandler, FocusHandler>, o: Options, i: nat)
    requires i < |d.nodes|
    ensures SameIdentities(InsertShadow(d.nodes, d.next, i), FieldInit(d, o, i).nodes)
    ensures FieldInit(d, o, i).next == d.next + 1
  {
    var t := d.nodes[i];
    var inserted := InsertShadow(d.nodes, d.next, i);
    var text := TextHint(o, t);
    if text != "" {
      var decorated := DecorateFirst(inserted, ShadowPrefix + Key(t), o, t, text);
      var bound := BindBlur(decorated, i + 1, FieldBlur);
      var fired := FireBlur(bound, o, i + 1);
      assert SameIdentities(bound, fired);
      assert SameIdentities(inserted, bound);
    }
  }

  /** Field mode keeps the page invariant and every element on it. */
  lemma FieldInitKeeps(d: Doc<BlurHandler, FocusHandler>, o: Options, i: nat)
    requires WellFormed(d) && i < |d.nodes|
    ensures WellFormed(FieldInit(d, o, i)) && Keeps(d.nodes, FieldInit(d, o, i).nodes)
  {
    var key := Key(d.nodes[i]);
    FieldInitInPlace(d, o, i);
    InsertThenInPlace(d, i, NewHiddenInput(d.next, ShadowPrefix + key, Some(key)), FieldInit(d, o, i).nodes);
  }


  /** Every init step keeps the page invariant and every element on it. */
  lemma InitOneKeeps(d: Doc<BlurHandler, FocusHandler>, o: Options, i: nat)
    requires WellFormed(d) && i < |d.nodes|
    ensures WellFormed(InitOne(d, o, i)) && Keeps(d.nodes, InitOne(d, o, i).nodes)
  {
    if o.mode == Str("field") {
      FieldInitKeeps(d, o, i);
    } else if o.mode == Str("class") || o.mode == Str("background") {
      var h := if o.mode == Str("class") then ClassBlur else BackgroundBlur;
      var f := if o.mode == Str("class") then ClassFocus else BackgroundFocus;
      var t := d.nodes[i];
      var bound := d.nodes[i := t.(blurHandlers := t.blurHandlers + [h], focusHandlers := t.focusHandlers + [f])];
      assert SameIdentities(d.nodes, bound);
      SameIdentitiesKeeps(d.nodes, bound, d.next);
      RestyledKeeps(bound, FireBlur(bound, o, i), d.next);
      KeepsTransitive(d.nodes, bound, FireBlur(bound, o, i));
    }
  }

  /** `init`'s `each`: every element of the collection in turn, stopping at
      the first one that is not a text or password input. */
  function InitAll(d: Doc<BlurHandler, FocusHandler>, o: Options, coll: seq<Uid>): (r: Doc<BlurHandler, FocusHandler>)
    requires WellFormed(d) && InPage(d.nodes, coll)
    ensures WellFormed(r) && Keeps(d.nodes, r.nodes)
    decreases |coll|
  {
    if coll == [] then d
    else
      var i := IndexOf(d.nodes, coll[0]).value;
      if !IsTextInput(d.nodes[i]) then d
      else
        InitOneKeeps(d, o, i);
        var r := InitAll(InitOne(d, o, i), o, coll[1..]);
        KeepsTransitive(d.nodes, InitOne(d, o, i).nodes, r.nodes);
        r
  }

  /** `setHint`'s argument as it reaches `val` and `attr`: a missing one only
      reads them, an object is written as text. */
  function HintText(arg: Arg): Option<string>
  {
    match arg
    case Absent => None
    case Text(s) => Some(s)
    case Settings(_) => Some(ObjectText)
  }

  /** Whether `n` is one of the inputs `input[hintFOR='key']` selects. */
  predicate ShadowOf(n: Element, key: string)
  {
    n.tag == "input" && n.hintFor == Some(key)
  }

  /** `val(s).attr('title', s)` on one element, when it is a shadow of `key`. */
  function Relabel(n: Element, key: string, s: string): (r: Element)
    ensures SameIdentity(n, r)
  {
    if ShadowOf(n, key) then n.(value := s, title := s) else n
  }

  /** One step of `setHint`'s `each` for the element `u`: relabel every shadow
      of its key, then set its own title. */
  function SetHintOne(nodes: seq<Element>, u: Uid, text: Option<string>): (r: seq<Element>)
    requires IndexOf(nodes, u).Some?
    ensures SameIdentities(nodes, r)
  {
    match text
    case None => nodes
    case Some(s) =>
      var k := IndexOf(nodes, u).value;
      var relabelled := seq(|nodes|, j requires 0 <= j < |nodes| => Relabel(nodes[j], Key(nodes[k]), s));
      relabelled[k := relabelled[k].(title := s)]
  }

  function SetHintEach(nodes: seq<Element>, coll: seq<Uid>, text: Option<string>): (r: seq<Element>)
    requires InPage(nodes, coll)
    ensures SameIdentities(nodes, r)
    decreases |coll|
  {
    if coll == [] then nodes
    else
      var next := SetHintOne(nodes, coll[0], text);
      SameIdentitiesKeeps(nodes, next, 0);
      SetHintEach(next, coll[1..], text)
  }

  /** One step of `setHint`'s `each`: the rest of the collection is still on
      the page and is handled from the page the step left. */
  lemma SetHintEachStep(before: seq<Element>, after: seq<Element>, rest: seq<Uid>, text: Option<string>)
    requires InPage(before, rest) && rest != []
    requires after == SetHintOne(before, rest[0], text)
    ensures InPage(after, rest[1..])
    ensures SetHintEach(before, rest, text) == SetHintEach(after, rest[1..], text)
  {
    SameIdentitiesKeeps(before, after, 0);
    KeepsInPage(before, after, rest[1..]);
  }

  /** `setHint`: only in field mode does it touch the page. */
  function SetHintAll(nodes: seq<Element>, o: Options, coll: seq<Uid>, hint: Arg): seq<Element>
    requires InPage(nodes, coll)
  {
    if o.mode == Str("field") then SetHintEach(nodes, coll, HintText(hint)) else nodes
  }

  /** `$('#' + x).remove()`: remove the first element with id `x`, if any;
      every other element stays, in order. */
  function RemoveFirst(nodes: seq<Element>, x: string): (r: seq<Element>)
    ensures FirstById(nodes, x).None? ==> r == nodes
    ensures FirstById(nodes, x).Some? ==>
      var s := FirstById(nodes, x).value;
      && |r| + 1 == |nodes|
      && (forall k :: 0 <= k < s ==> r[k] == nodes[k])
      && (forall k :: s <= k < |r| ==> r[k] == nodes[k + 1])
  {
    match FirstById(nodes, x)
    case Some(s) => nodes[..s] + nodes[s + 1..]
    case None => nodes
  }

  /** `unbind('blur').unbind('focus')` on the element `u`, if it is on the page. */
  function Unbind(nodes: seq<Element>, u: Uid): (r: seq<Element>)
    ensures SameIdentities(nodes, r)
    ensures IndexOf(nodes, u).Some? ==>
      var k := IndexOf(nodes, u).value;
      r[k].blurHandlers == [] && r[k].focusHandlers == [] &&
      r[k] == nodes[k].(blurHandlers := [], focusHandlers := [])
    ensures forall k :: 0 <= k < |r| && nodes[k].uid != u ==> r[k] == nodes[k]
  {
    match IndexOf(nodes, u)
    case Some(k) => nodes[k := nodes[k].(blurHandlers := [], focusHandlers := [])]
    case None => nodes
  }

  /** One step of `destroyHint`'s `each`: remove the element the shadow id of
      `key` finds, then unbind the element `u`. */
  function DestroyOne(nodes: seq<Element>, key: string, u: Uid): seq<Element>
  {
    Unbind(RemoveFirst(nodes, ShadowPrefix + key), u)
  }

  /** `destroyHint` over a collection; `orig` is the page the collection was
      taken from, where each element's id and name are read. */
  function DestroyEach(nodes: seq<Element>, orig: seq<Element>, coll: seq<Uid>): seq<Element>
    requires InPage(orig, coll)
    decreases |coll|
  {
    if coll == [] then nodes
    else DestroyEach(DestroyOne(nodes, Key(orig[IndexOf(orig, coll[0]).value]), coll[0]), orig, coll[1..])
  }

  /** Removing an element keeps the page invariant. */
  lemma RemoveFirstWellFormed(d: Doc<BlurHandler, FocusHandler>, x: string)
    requires WellFormed(d)
    ensures WellFormed(Doc(RemoveFirst(d.nodes, x), d.next))
  {
    match FirstById(d.nodes, x) {
      case Some(s) =>
        var r := d.nodes[..s] + d.nodes[s + 1..];
        assert forall k :: 0 <= k < |r| ==> r[k] == (if k < s then d.nodes[k] else d.nodes[k + 1]);
      case None =>
    }
  }

  /** What a call returns: the collection for chaining, or some other value
      that a built-in found under an inherited name returns. */
  datatype Returned = Chain(elements: seq<Uid>) | NotChained

  /** A built-in applied to the collection: `valueOf` returns the collection
      itself; the others return a new object, a string or a boolean. None of
      them changes the page. */
  function NativeReturn(name: string, coll: seq<Uid>): (r: Returned)
    ensures r.Chain? <==> name == "valueOf"
    ensures r.Chain? ==> r.elements == coll
  {
    if name == "valueOf" then Chain(coll) else NotChained
  }

  /** The plugin: the shared options live as long as the page. */
  class Plugin {
    var options: Options

    constructor ()
      ensures options == Defaults
    {
      options := Defaults;
    }

    /** Run the blur handlers of element `i`, in the order they were bound. */
    method TriggerBlur(page: Page<BlurHandler, FocusHandler>, i: nat)
      requires i < |page.nodes|
      modifies page
      ensures page.nodes == FireBlur(old(page.nodes), options, i)
      ensures page.next == old(page.next)
    {
      var hs := page.nodes[i].blurHandlers;
      var k := 0;
      while k < |hs|
        invariant 0 <= k <= |hs| && |page.nodes| == |old(page.nodes)|
        invariant RunBlur(old(page.nodes), options, i, hs) == RunBlur(page.nodes, options, i, hs[k..])
        invariant page.next == old(page.next)
      {
        assert hs[k..][1..] == hs[k + 1..];
        assert RunBlur(page.nodes, options, i, hs[k..]) == RunBlur(OnBlur(page.nodes, options, i, hs[k]), options, i, hs[k + 1..]);
        page.nodes := OnBlur(page.nodes, options, i, hs[k]);
        k := k + 1;
      }
    }

    /** Run the focus handlers of element `j`, in the order they were bound. */
    method TriggerFocus(page: Page<BlurHandler, FocusHandler>, j: nat)
      requires j < |page.nodes|
      modifies page
      ensures page.nodes == RunFocus(old(page.nodes), options, j, old(page.nodes[j].focusHandlers))
      ensures page.next == old(page.next)
    {
      var hs := page.nodes[j].focusHandlers;
      var k := 0;
      while k < |hs|
        invariant 0 <= k <= |hs| && |page.nodes| == |old(page.nodes)|
        invariant RunFocus(old(page.nodes), options, j, hs) == RunFocus(page.nodes, options, j, hs[k..])
        invariant page.next == old(page.next)
      {
        assert hs[k..][1..] == hs[k + 1..];
        assert RunFocus(page.nodes, options, j, hs[k..]) == RunFocus(OnFocus(page.nodes, options, j, hs[k]), options, j, hs[k + 1..]);
        page.nodes := OnFocus(page.nodes, options, j, hs[k]);
        k := k + 1;
      }
    }

    /** The user leaves the element `u`. */
    method Blur(page: Page<BlurHandler, FocusHandler>, u: Uid)
      requires page.Valid()
      modifies page
      ensures page.Valid() && page.next == old(page.next)
      ensures page.nodes == BlurEvent(old(page.nodes), options, u)
    {
      var at := IndexOf(page.nodes, u);
      if at.Some? {
        TriggerBlur(page, at.value);
        RestyledKeeps(old(page.nodes), page.nodes, page.next);
      }
    }

    /** The user enters the element `u`. */
    method Focus(page: Page<BlurHandler, FocusHandler>, u: Uid)
      requires page.Valid()
      modifies page
      ensures page.Valid() && page.next == old(page.next)
      ensures page.nodes == FocusEvent(old(page.nodes), options, u)
    {
      var at := IndexOf(page.nodes, u);
      if at.Some? {
        TriggerFocus(page, at.value);
        RestyledKeeps(old(page.nodes), page.nodes, page.next);
      }
    }

    /** Field mode on the target at `i`. */
    method InitField(page: Page<BlurHandler, FocusHandler>, i: nat)
      requires i < |page.nodes|
      modifies page
      ensures page.Snapshot() == FieldInit(old(page.Snapshot()), options, i)
    {
      var t := page.nodes[i];
      page.nodes := InsertShadow(page.nodes, page.next, i);
      page.next := page.next + 1;
      var text := TextHint(options, t);
      if text != "" {
        ghost var inserted := page.nodes;
        var found := FirstById(page.nodes, ShadowPrefix + Key(t));
        if found.Some? {
          page.nodes := page.nodes[found.value := Decorate(page.nodes[found.value], options, t, text)];
        }
        assert page.nodes == DecorateFirst(inserted, ShadowPrefix + Key(t), options, t, text);
        page.nodes := page.nodes[i + 1 := page.nodes[i + 1].(blurHandlers := page.nodes[i + 1].blurHandlers + [FieldBlur])];
        TriggerBlur(page, i + 1);
      }
    }

    /** Class or background mode on the field at `i`. */
    method InitToggle(page: Page<BlurHandler, FocusHandler>, i: nat, h: BlurHandler, f: FocusHandler)
      requires i < |page.nodes|
      modifies page
      ensures page.Snapshot() == ToggleInit(old(page.Snapshot()), options, i, h, f)
    {
      var t := page.nodes[i];
      page.nodes := page.nodes[i := t.(blurHandlers := t.blurHandlers + [h], focusHandlers := t.focusHandlers + [f])];
      TriggerBlur(page, i);
    }

    /** `init`: merge the argument into the shared options, then set up every
        element of the collection up to the first that is not a text or
        password input. Returns the collection. */
    method Init(page: Page<BlurHandler, FocusHandler>, coll: seq<Uid>, arg: Arg) returns (r: seq<Uid>)
      requires page.Valid() && InPage(page.nodes, coll)
      modifies this, page
      ensures options == Merge(old(options), arg)
      ensures page.Valid()
      ensures page.Snapshot() == InitAll(old(page.Snapshot()), options, coll)
      ensures r == coll
    {
      match arg {
        case Settings(fields) => options := Extend(options, fields);
        case Text(s) => if s != "" { options := options.(hint := Str(s)); }
        case Absent =>
      }
      InitEach(page, coll);
      r := coll;
    }

    /** One element of `init`'s `each`, by the mode in force. */
    method InitElement(page: Page<BlurHandler, FocusHandler>, i: nat)
      requires i < |page.nodes|
      modifies page
      ensures page.Snapshot() == InitOne(old(page.Snapshot()), options, i)
    {
      if options.mode == Str("field") {
        InitField(page, i);
      } else if options.mode == Str("class") {
        InitToggle(page, i, ClassBlur, ClassFocus);
      } else if options.mode == Str("background") {
        InitToggle(page, i, BackgroundBlur, BackgroundFocus);
      }
    }

    /** `init`'s `each` under the current options. */
    method InitEach(page: Page<BlurHandler, FocusHandler>, coll: seq<Uid>)
      requires page.Valid() && InPage(page.nodes, coll)
      modifies page
      ensures page.Valid()
      ensures page.Snapshot() == InitAll(old(page.Snapshot()), options, coll)
    {
      ghost var goal := InitAll(page.Snapshot(), options, coll);
      var k := 0;
      while k < |coll|
        invariant 0 <= k <= |coll|
        invariant page.Valid() && InPage(page.nodes, coll[k..])
        invariant goal == InitAll(page.Snapshot(), options, coll[k..])
      {
        var i := IndexOf(page.nodes, coll[k]).value;
        if !IsTextInput(page.nodes[i]) {
          break;
        }
        ghost var before := page.Snapshot();
        InitOneKeeps(before, options, i);
        InitElement(page, i);
        KeepsInPage(before.nodes, page.nodes, coll[k..][1..]);
        assert coll[k..][1..] == coll[k + 1..];
        k := k + 1;
      }
    }

    /** One element of `setHint`: every shadow of `key` gets the text as value
        and title, then the element at `k` gets it as title. */
    method SetHintElement(page: Page<BlurHandler, FocusHandler>, u: Uid, s: string)
      requires IndexOf(page.nodes, u).Some?
      modifies page
      ensures page.next == old(page.next)
      ensures page.nodes == SetHintOne(old(page.nodes), u, Some(s))
    {
      var k := IndexOf(page.nodes, u).value;
      var key := Key(page.nodes[k]);
      var j := 0;
      while j < |page.nodes|
        invariant 0 <= j <= |page.nodes| == |old(page.nodes)| && page.next == old(page.next)
        invariant forall m :: 0 <= m < |page.nodes| ==>
          page.nodes[m] == if m < j then Relabel(old(page.nodes)[m], key, s) else old(page.nodes)[m]
      {
        if ShadowOf(page.nodes[j], key) {
          page.nodes := page.nodes[j := page.nodes[j].(value := s, title := s)];
        }
        j := j + 1;
      }
      page.nodes := page.nodes[k := page.nodes[k].(title := s)];
    }

    /** One step of `setHint`'s `each`: relabel when there is text. */
    method SetHintStep(page: Page<BlurHandler, FocusHandler>, u: Uid, text: Option<string>)
      requires page.Valid() && IndexOf(page.nodes, u).Some?
      modifies page
      ensures page.Valid() && page.next == old(page.next)
      ensures page.nodes == SetHintOne(old(page.nodes), u, text)
      ensures Keeps(old(page.nodes), page.nodes)
    {
      if text.Some? {
        SetHintElement(page, u, text.value);
      }
      SameIdentitiesKeeps(old(page.nodes), page.nodes, page.next);
    }

    /** `setHint`: in field mode, relabel the shadows of each element of the
        collection and retitle the element. Returns the collection. */
    method SetHint(page: Page<BlurHandler, FocusHandler>, coll: seq<Uid>, hint: Arg) returns (r: seq<Uid>)
      requires page.Valid() && InPage(page.nodes, coll)
      modifies page
      ensures page.Valid() && page.next == old(page.next)
      ensures page.nodes == SetHintAll(old(page.nodes), options, coll, hint)
      ensures r == coll
    {
      r := coll;
      var text := HintText(hint);
      if options.mode != Str("field") {
        return;
      }
      ghost var goal := SetHintEach(page.nodes, coll, text);
      var k := 0;
      while k < |coll|
        invariant 0 <= k <= |coll| && page.Valid() && page.next == old(page.next)
        invariant InPage(page.nodes, coll[k..])
        invariant goal == SetHintEach(page.nodes, coll[k..], text)
      {
        ghost var before := page.nodes;
        SetHintStep(page, coll[k], text);
        SetHintEachStep(before, page.nodes, coll[k..], text);
        assert coll[k..][1..] == coll[k + 1..];
        k := k + 1;
      }
    }

    /** One element of `destroyHint`: remove the element the shadow id of
        `key` finds, then unbind the element `u`. */
    method DestroyElement(page: Page<BlurHandler, FocusHandler>, key: string, u: Uid)
      requires page.Valid()
      modifies page
      ensures page.Valid() && page.next == old(page.next)
      ensures page.nodes == DestroyOne(old(page.nodes), key, u)
    {
      RemoveFirstWellFormed(page.Snapshot(), ShadowPrefix + key);
      page.nodes := RemoveFirst(page.nodes, ShadowPrefix + key);
      ghost var removed := page.nodes;
      var at := IndexOf(page.nodes, u);
      if at.Some? {
        page.nodes := page.nodes[at.value := page.nodes[at.value].(blurHandlers := [], focusHandlers := [])];
      }
      assert page.nodes == Unbind(removed, u);
      SameIdentitiesKeeps(removed, page.nodes, page.next);
    }

    /** `destroyHint`: for each element, remove its shadow and unbind its blur
        and focus handlers. Returns the collection. */
    method DestroyHint(page: Page<BlurHandler, FocusHandler>, coll: seq<Uid>) returns (r: seq<Uid>)
      requires page.Valid() && InPage(page.nodes, coll)
      modifies page
      ensures page.Valid() && page.next == old(page.next)
      ensures page.nodes == DestroyEach(old(page.nodes), old(page.nodes), coll)
      ensures r == coll
    {
      var orig := page.nodes;
      var k := 0;
      while k < |coll|
        invariant 0 <= k <= |coll| && page.Valid() && page.next == old(page.next)
        invariant InPage(orig, coll[k..])
        invariant DestroyEach(orig, orig, coll) == DestroyEach(page.nodes, orig, coll[k..])
      {
        assert coll[k..][1..] == coll[k + 1..];
        DestroyElement(page, Key(orig[IndexOf(orig, coll[k]).value]), coll[k]);
        k := k + 1;
      }
      r := coll;
    }

    /** `$.fn.ztinputhint(first, second)`: route the call, then run it. */
    method Call(page: Page<BlurHandler, FocusHandler>, coll: seq<Uid>, first: Arg, second: Arg) returns (r: Returned)
      requires page.Valid() && InPage(page.nodes, coll)
      modifies this, page
      ensures page.Valid()
      ensures r == if Route(first, second).NativeRequest? then NativeReturn(Route(first, second).name, coll) else Chain(coll)
      ensures Route(first, second).InitRequest? ==>
        options == Merge(old(options), Route(first, second).options) &&
        page.Snapshot() == InitAll(old(page.Snapshot()), options, coll)
      ensures Route(first, second).SetHintRequest? ==>
        options == old(options) && page.next == old(page.next) &&
        page.nodes == SetHintAll(old(page.nodes), options, coll, second)
      ensures Route(first, second).DestroyRequest? ==>
        options == old(options) && page.next == old(page.next) &&
        page.nodes == DestroyEach(old(page.nodes), old(page.nodes), coll)
      ensures Route(first, second).NativeRequest? ==>
        options == old(options) && page.Snapshot() == old(page.Snapshot())
    {
      match Route(first, second) {
        case InitRequest(arg) =>
          var c := Init(page, coll, arg);
          r := Chain(c);
        case DestroyRequest =>
          var c := DestroyHint(page, coll);
          r := Chain(c);
        case SetHintRequest(hint) =>
          var c := SetHint(page, coll, hint);
          r := Chain(c);
        case NativeRequest(name) =>
          r := NativeReturn(name, coll);
      }
    }
  }
}
