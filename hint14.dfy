/** Revision 1.4 of the plugin: every call builds its own options, the
    handlers it binds keep those options, and a dummy field is tied to its
    target only by standing just before it. */
module HintV14 {
  import opened JsValues
  import opened Dom
  import Toggle

  /** The `defaults` object one call builds. */
  datatype Options = Options(
    hint: OptVal,
    mode: OptVal,
    sourceAttrib: OptVal,
    hintClass: OptVal,
    defaultClass: OptVal,
    hintBG: OptVal,
    defaultBG: OptVal)
  {
    /** The option stored under a property name. */
    function Get(name: string): OptVal
    {
      if name == "hint" then hint
      else if name == "mode" then mode
      else if name == "sourceAttrib" then sourceAttrib
      else if name == "hintClass" then hintClass
      else if name == "defaultClass" then defaultClass
      else if name == "hintBG" then hintBG
      else if name == "defaultBG" then defaultBG
      else Off
    }
  }

  const OptionNames: set<string> :=
    {"hint", "mode", "sourceAttrib", "hintClass", "defaultClass", "hintBG", "defaultBG"}

  /** The defaults every call starts from. */
  const Defaults: Options := Options(Off, Str("field"), Str("title"), Off, Off, Off, Off)

  function Override(fields: map<string, OptVal>, name: string, current: OptVal): OptVal
  {
    if name in fields then fields[name] else current
  }

  /** `$.extend(defaults, fields)`. */
  function Extend(o: Options, fields: map<string, OptVal>): Options
  {
    Options(
      Override(fields, "hint", o.hint),
      Override(fields, "mode", o.mode),
      Override(fields, "sourceAttrib", o.sourceAttrib),
      Override(fields, "hintClass", o.hintClass),
      Override(fields, "defaultClass", o.defaultClass),
      Override(fields, "hintBG", o.hintBG),
      Override(fields, "defaultBG", o.defaultBG))
  }

  /** The options of one call: the defaults, with an object argument merged
      in or a non-empty string argument as the hint. Nothing from an earlier
      call takes part. */
  function CallOptions(arg: Arg): (r: Options)
    ensures forall name :: name in OptionNames ==>
      r.Get(name) == (if arg.Settings? && name in arg.fields then arg.fields[name]
                      else if arg.Text? && arg.s != "" && name == "hint" then Str(arg.s)
                      else Defaults.Get(name))
  {
    match arg
    case Settings(fields) => Extend(Defaults, fields)
    case Text(s) => if s != "" then Defaults.(hint := Str(s)) else Defaults
    case Absent => Defaults
  }

  /** Handlers this revision binds; the class and background ones keep the
      options of the call that bound them. */
  datatype BlurHandler = FieldBlur | ClassBlur(o: Options) | BackgroundBlur(o: Options)
  datatype FocusHandler = FieldFocus | ClassFocus(o: Options) | BackgroundFocus(o: Options)

  type Element = Node<BlurHandler, FocusHandler>

  /** Dummy focus handler: hide the dummy, then show the input right after it. */
  function FieldOnFocus(nodes: seq<Element>, j: nat): (r: seq<Element>)
    requires j < |nodes|
    ensures Restyled(nodes, r)
  {
    var hidden := nodes[j := Hide(nodes[j])];
    match NextInput(hidden, j)
    case Some(n) => hidden[n := Show(hidden[n])]
    case None => hidden
  }

  /** Target blur handler: when its value is empty, show the input right
      before it, then hide the target. */
  function FieldOnBlur(nodes: seq<Element>, i: nat): (r: seq<Element>)
    requires i < |nodes|
    ensures Restyled(nodes, r)
  {
    if nodes[i].value == "" then
      var shown := match PrevInput(nodes, i)
        case Some(p) => nodes[p := Show(nodes[p])]
        case None => nodes;
      shown[i := Hide(shown[i])]
    else nodes
  }

  /** One blur handler bound on element `i`. */
  function OnBlur(nodes: seq<Element>, i: nat, h: BlurHandler): (r: seq<Element>)
    requires i < |nodes|
    ensures Restyled(nodes, r)
  {
    match h
    case FieldBlur => FieldOnBlur(nodes, i)
    case ClassBlur(o) =>
      nodes[i := nodes[i].(classes := Toggle.ClassesOnBlur(nodes[i].classes, nodes[i].value, o.hintClass, o.defaultClass))]
    case BackgroundBlur(o) =>
      nodes[i := nodes[i].(bgImage := Toggle.BackgroundOnBlur(nodes[i].bgImage, nodes[i].value, o.hintBG))]
  }

  /** One focus handler bound on element `j`. */
  function OnFocus(nodes: seq<Element>, j: nat, h: FocusHandler): (r: seq<Element>)
    requires j < |nodes|
    ensures Restyled(nodes, r)
  {
    match h
    case FieldFocus => FieldOnFocus(nodes, j)
    case ClassFocus(o) =>
      nodes[j := nodes[j].(classes := Toggle.ClassesOnFocus(nodes[j].classes, o.hintClass, o.defaultClass))]
    case BackgroundFocus(o) =>
      nodes[j := nodes[j].(bgImage := Toggle.BackgroundOnFocus(o.defaultBG))]
  }

  /** The blur handlers `hs` of element `i`, run in the order they were
      bound, each with the options it captured. */
  function RunBlur(nodes: seq<Element>, i: nat, hs: seq<BlurHandler>): (r: seq<Element>)
    requires i < |nodes|
    ensures Restyled(nodes, r)
    decreases |hs|
  {
    if hs == [] then nodes else RunBlur(OnBlur(nodes, i, hs[0]), i, hs[1..])
  }

  /** The focus handlers `hs` of element `j`, run in the order they were
      bound, each with the options it captured. */
  function RunFocus(nodes: seq<Element>, j: nat, hs: seq<FocusHandler>): (r: seq<Element>)
    requires j < |nodes|
    ensures Restyled(nodes, r)
    decreases |hs|
  {
    if hs == [] then nodes else RunFocus(OnFocus(nodes, j, hs[0]), j, hs[1..])
  }

  /** `container.blur()`: every blur handler of element `i` runs. */
  function FireBlur(nodes: seq<Element>, i: nat): (r: seq<Element>)
    requires i < |nodes|
    ensures Restyled(nodes, r)
  {
    RunBlur(nodes, i, nodes[i].blurHandlers)
  }

  function BlurEvent(nodes: seq<Element>, u: Uid): seq<Element>
  {
    match IndexOf(nodes, u)
    case Some(i) => FireBlur(nodes, i)
    case None => nodes
  }

  function FocusEvent(nodes: seq<Element>, u: Uid): seq<Element>
  {
    match IndexOf(nodes, u)
    case Some(j) => RunFocus(nodes, j, nodes[j].focusHandlers)
    case None => nodes
  }

  /** `hint || attr(sourceAttrib)`. */
  function TextHint(o: Options, t: Element): string
  {
    if Truthy(o.hint) then o.hint.s else Attr(t, o.sourceAttrib)
  }

  /** `hintClass || attr('class')`. */
  function ClassHint(o: Options, t: Element): set<string>
  {
    if Truthy(o.hintClass) then {o.hintClass.s} else t.classes
  }

  /** What the dummy takes over from its target when there is hint text:
      class, size, tab index and value, and the dummy focus handler. No title
      and no colour. */
  function Decorate(dummy: Element, o: Options, t: Element, text: string): (r: Element)
    ensures SameIdentity(dummy, r)
  {
    dummy.(
      classes := ClassHint(o, t),
      size := t.size,
      tabIndex := t.tabIndex,
      value := text,
      focusHandlers := dummy.focusHandlers + [FieldFocus])
  }

  /** `$('<input type="text" value="" style="display: none;" />')
      .insertBefore(container)`: a hidden input with no id. */
  function InsertDummy(nodes: seq<Element>, next: Uid, i: nat): (r: seq<Element>)
    requires i < |nodes|
    ensures |r| == |nodes| + 1 && r[i + 1] == nodes[i]
  {
    nodes[..i] + [NewHiddenInput(next, "", None)] + nodes[i..]
  }

  /** `container.prev('input:first')` decorated, when it is there. */
  function DecoratePrev(nodes: seq<Element>, i: nat, o: Options, t: Element, text: string): (r: seq<Element>)
    ensures SameIdentities(nodes, r)
  {
    match PrevInput(nodes, i)
    case Some(p) => nodes[p := Decorate(nodes[p], o, t, text)]
    case None => nodes
  }

  function BindBlur(nodes: seq<Element>, i: nat, h: BlurHandler): (r: seq<Element>)
    requires i < |nodes|
    ensures SameIdentities(nodes, r)
  {
    nodes[i := nodes[i].(blurHandlers := nodes[i].blurHandlers + [h])]
  }

  /** Field mode on the target at `i`: insert a hidden dummy before it; when
      there is hint text, decorate the input before the target, bind the blur
      handler on the target and fire its blur. */
  function FieldInit(d: Doc<BlurHandler, FocusHandler>, o: Options, i: nat): Doc<BlurHandler, FocusHandler>
    requires i < |d.nodes|
  {
    var t := d.nodes[i];
    var inserted := InsertDummy(d.nodes, d.next, i);
    var text := TextHint(o, t);
    if text == "" then Doc(inserted, d.next + 1)
    else
      var bound := BindBlur(DecoratePrev(inserted, i + 1, o, t, text), i + 1, FieldBlur);
      Doc(FireBlur(bound, i + 1), d.next + 1)
  }

  /** Class or background mode on the field at `i`: bind the pair of handlers
      and fire the blur. */
  function ToggleInit(d: Doc<BlurHandler, FocusHandler>, i: nat, h: BlurHandler, f: FocusHandler): Doc<BlurHandler, FocusHandler>
    requires i < |d.nodes|
  {
    var t := d.nodes[i];
    var bound := d.nodes[i := t.(blurHandlers := t.blurHandlers + [h], focusHandlers := t.focusHandlers + [f])];
    Doc(FireBlur(bound, i), d.next)
  }

  /** One step of the `each`, by the mode of the call. */
  function InitOne(d: Doc<BlurHandler, FocusHandler>, o: Options, i: nat): Doc<BlurHandler, FocusHandler>
    requires i < |d.nodes|
  {
    if o.mode == Str("field") then FieldInit(d, o, i)
    else if o.mode == Str("class") then ToggleInit(d, i, ClassBlur(o), ClassFocus(o))
    else if o.mode == Str("background") then ToggleInit(d, i, BackgroundBlur(o), BackgroundFocus(o))
    else d
  }

  /** After the dummy is inserted, field mode changes elements only in place. */
  lemma FieldInitInPlace(d: Doc<BlurHandler, FocusHandler>, o: Options, i: nat)
    requires i < |d.nodes|
    ensures SameIdentities(InsertDummy(d.nodes, d.next, i), FieldInit(d, o, i).nodes)
    ensures FieldInit(d, o, i).next == d.next + 1
  {
    var t := d.nodes[i];
    var inserted := InsertDummy(d.nodes, d.next, i);
    var text := TextHint(o, t);
    if text != "" {
      var decorated := DecoratePrev(inserted, i + 1, o, t, text);
      var bound := BindBlur(decorated, i + 1, FieldBlur);
      var fired := FireBlur(bound, i + 1);
      assert SameIdentities(bound, fired);
      assert SameIdentities(inserted, bound);
    }
  }

  /** Field mode keeps every element of the page with its identity. */
  lemma FieldInitKeeps(d: Doc<BlurHandler, FocusHandler>, o: Options, i: nat)
    requires WellFormed(d) && i < |d.nodes|
    ensures WellFormed(FieldInit(d, o, i)) && Keeps(d.nodes, FieldInit(d, o, i).nodes)
  {
    FieldInitInPlace(d, o, i);
    InsertThenInPlace(d, i, NewHiddenInput(d.next, "", None), FieldInit(d, o, i).nodes);
  }


  lemma InitOneKeeps(d: Doc<BlurHandler, FocusHandler>, o: Options, i: nat)
    requires WellFormed(d) && i < |d.nodes|
    ensures WellFormed(InitOne(d, o, i)) && Keeps(d.nodes, InitOne(d, o, i).nodes)
  {
    if o.mode == Str("field") {
      FieldInitKeeps(d, o, i);
    } else if o.mode == Str("class") || o.mode == Str("background") {
      var h := if o.mode == Str("class") then ClassBlur(o) else BackgroundBlur(o);
      var f := if o.mode == Str("class") then ClassFocus(o) else BackgroundFocus(o);
      var t := d.nodes[i];
      var bound := d.nodes[i := t.(blurHandlers := t.blurHandlers + [h], focusHandlers := t.focusHandlers + [f])];
      assert SameIdentities(d.nodes, bound);
      SameIdentitiesKeeps(d.nodes, bound, d.next);
      RestyledKeeps(bound, FireBlur(bound, i), d.next);
      KeepsTransitive(d.nodes, bound, FireBlur(bound, i));
    }
  }

  /** The `each` of a call: every element in turn, stopping at the first one
      that is not a text or password input. */
  function InitAll(d: Doc<BlurHandler, FocusHandler>, o: Options, coll: seq<Uid>): (r: Doc<BlurHandler, FocusHandler>)
    requires WellFormed(d) && InPage(d.nodes, coll)
    ensures WellFormed(r) && Keeps(d.nodes, r.nodes)
    decreases |coll|
  {
    if coll == [] then d
    else
      var i := IndexOf(d.nodes, coll[0]).value;
      if !IsTextInput(d.nodes[i]) then d
      else
        InitOneKeeps(d, o, i);
        var r := InitAll(InitOne(d, o, i), o, coll[1..]);
        KeepsTransitive(d.nodes, InitOne(d, o, i).nodes, r.nodes);
        r
  }

  /** Run the blur handlers of element `i`, in the order they were bound. */
  method TriggerBlur(page: Page<BlurHandler, FocusHandler>, i: nat)
    requires i < |page.nodes|
    modifies page
    ensures page.nodes == FireBlur(old(page.nodes), i)
    ensures page.next == old(page.next)
  {
    var hs := page.nodes[i].blurHandlers;
    var k := 0;
    while k < |hs|
      invariant 0 <= k <= |hs| && |page.nodes| == |old(page.nodes)|
      invariant RunBlur(old(page.nodes), i, hs) == RunBlur(page.nodes, i, hs[k..])
      invariant page.next == old(page.next)
    {
      assert hs[k..][1..] == hs[k + 1..];
      page.nodes := OnBlur(page.nodes, i, hs[k]);
      k := k + 1;
    }
  }

  /** Run the focus handlers of element `j`, in the order they were bound. */
  method TriggerFocus(page: Page<BlurHandler, FocusHandler>, j: nat)
    requires j < |page.nodes|
    modifies page
    ensures page.nodes == RunFocus(old(page.nodes), j, old(page.nodes[j].focusHandlers))
    ensures page.next == old(page.next)
  {
    var hs := page.nodes[j].focusHandlers;
    var k := 0;
    while k < |hs|
      invariant 0 <= k <= |hs| && |page.nodes| == |old(page.nodes)|
      invariant RunFocus(old(page.nodes), j, hs) == RunFocus(page.nodes, j, hs[k..])
      invariant page.next == old(page.next)
    {
      assert hs[k..][1..] == hs[k + 1..];
      page.nodes := OnFocus(page.nodes, j, hs[k]);
      k := k + 1;
    }
  }

  /** The user leaves the element `u`. */
  method Blur(page: Page<BlurHandler, FocusHandler>, u: Uid)
    requires page.Valid()
    modifies page
    ensures page.Valid() && page.next == old(page.next)
    ensures page.nodes == BlurEvent(old(page.nodes), u)
  {
    var at := IndexOf(page.nodes, u);
    if at.Some? {
      TriggerBlur(page, at.value);
      RestyledKeeps(old(page.nodes), page.nodes, page.next);
    }
  }

  /** The user enters the element `u`. */
  method Focus(page: Page<BlurHandler, FocusHandler>, u: Uid)
    requires page.Valid()
    modifies page
    ensures page.Valid() && page.next == old(page.next)
    ensures page.nodes == FocusEvent(old(page.nodes), u)
  {
    var at := IndexOf(page.nodes, u);
    if at.Some? {
      TriggerFocus(page, at.value);
      RestyledKeeps(old(page.nodes), page.nodes, page.next);
    }
  }

  /** Field mode on the target at `i`. */
  method InitField(page: Page<BlurHandler, FocusHandler>, o: Options, i: nat)
    requires i < |page.nodes|
    modifies page
    ensures page.Snapshot() == FieldInit(old(page.Snapshot()), o, i)
  {
    var t := page.nodes[i];
    page.nodes := InsertDummy(page.nodes, page.next, i);
    page.next := page.next + 1;
    var text := TextHint(o, t);
    if text != "" {
      var dummy := PrevInput(page.nodes, i + 1);
      if dummy.Some? {
        page.nodes := page.nodes[dummy.value := Decorate(page.nodes[dummy.value], o, t, text)];
      }
      page.nodes := page.nodes[i + 1 := page.nodes[i + 1].(blurHandlers := page.nodes[i + 1].blurHandlers + [FieldBlur])];
      TriggerBlur(page, i + 1);
    }
  }

  /** Class or background mode on the field at `i`. */
  method InitToggle(page: Page<BlurHandler, FocusHandler>, i: nat, h: BlurHandler, f: FocusHandler)
    requires i < |page.nodes|
    modifies page
    ensures page.Snapshot() == ToggleInit(old(page.Snapshot()), i, h, f)
  {
    var t := page.nodes[i];
    page.nodes := page.nodes[i := t.(blurHandlers := t.blurHandlers + [h], focusHandlers := t.focusHandlers + [f])];
    TriggerBlur(page, i);
  }

  /** One element of the `each`, by the mode of the call. */
  method InitElement(page: Page<BlurHandler, FocusHandler>, o: Options, i: nat)
    requires i < |page.nodes|
    modifies page
    ensures page.Snapshot() == InitOne(old(page.Snapshot()), o, i)
  {
    if o.mode == Str("field") {
      InitField(page, o, i);
    } else if o.mode == Str("class") {
      InitToggle(page, i, ClassBlur(o), ClassFocus(o));
    } else if o.mode == Str("background") {
      InitToggle(page, i, BackgroundBlur(o), BackgroundFocus(o));
    }
  }

  /** `$.fn.ztinputhint(options)`: build this call's options, then set up
      every element of the collection up to the first that is not a text or
      password input. Returns the collection. */
  method Call(page: Page<BlurHandler, FocusHandler>, coll: seq<Uid>, arg: Arg) returns (r: seq<Uid>)
    requires page.Valid() && InPage(page.nodes, coll)
    modifies page
    ensures page.Valid()
    ensures page.Snapshot() == InitAll(old(page.Snapshot()), CallOptions(arg), coll)
    ensures r == coll
  {
    var o := Defaults;
    match arg {
      case Settings(fields) => o := Extend(o, fields);
      case Text(s) => if s != "" { o := o.(hint := Str(s)); }
      case Absent =>
    }
    InitEach(page, o, coll);
    r := coll;
  }

  /** The `each` of a call with options `o`. */
  method InitEach(page: Page<BlurHandler, FocusHandler>, o: Options, coll: seq<Uid>)
    requires page.Valid() && InPage(page.nodes, coll)
    modifies page
    ensures page.Valid()
    ensures page.Snapshot() == InitAll(old(page.Snapshot()), o, coll)
  {
    ghost var goal := InitAll(page.Snapshot(), o, coll);
    var k := 0;
    while k < |coll|
      invariant 0 <= k <= |coll|
      invariant page.Valid() && InPage(page.nodes, coll[k..])
      invariant goal == InitAll(page.Snapshot(), o, coll[k..])
    {
      var i := IndexOf(page.nodes, coll[k]).value;
      if !IsTextInput(page.nodes[i]) {
        break;
      }
      ghost var before := page.Snapshot();
      InitOneKeeps(before, o, i);
      InitElement(page, o, i);
      KeepsInPage(before.nodes, page.nodes, coll[k..][1..]);
      assert coll[k..][1..] == coll[k + 1..];
      k := k + 1;
    }
  }
}
