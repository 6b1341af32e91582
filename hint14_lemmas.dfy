/** What revision 1.4 promises: fresh options on every call, an element loop
    that stops at the first non-text input, and a dummy that works with the
    input next to it. */
module HintV14Lemmas {
  import opened JsValues
  import opened Dom
  import opened HintV14

  /** Every call starts from the defaults: an option the argument does not
      supply has its default value, whatever earlier calls did. */
  lemma EveryCallStartsFromDefaults(arg: Arg, name: string)
    requires name in OptionNames
    requires !(arg.Settings? && name in arg.fields)
    requires !(arg.Text? && arg.s != "" && name == "hint")
    ensures CallOptions(arg).Get(name) == Defaults.Get(name)
  {
  }

  /** The element loop stops at the first element that is not a text or
      password input: the elements after it are never set up. */
  lemma {:induction false} InitStopsAtFirstNonText(d: Doc<BlurHandler, FocusHandler>, o: Options, coll: seq<Uid>, j: nat)
    requires WellFormed(d) && InPage(d.nodes, coll) && j < |coll|
    requires !IsTextInput(d.nodes[IndexOf(d.nodes, coll[j]).value])
    ensures InitAll(d, o, coll) == InitAll(d, o, coll[..j])
    decreases j
  {
    var i := IndexOf(d.nodes, coll[0]).value;
    if j > 0 && IsTextInput(d.nodes[i]) {
      InitOneKeeps(d, o, i);
      var d1 := InitOne(d, o, i);
      assert coll[..j][1..] == coll[1..][..j - 1];
      assert coll[1..][j - 1] == coll[j];
      KeepsTextInput(d.nodes, d1.nodes, coll[1..], j - 1);
      InitStopsAtFirstNonText(d1, o, coll[1..], j - 1);
      assert InitAll(d, o, coll) == InitAll(d1, o, coll[1..]);
      assert InitAll(d, o, coll[..j]) == InitAll(d1, o, coll[..j][1..]);
    }
  }

  /** Field mode always puts a hidden input with no id and no `hintFor`
      right before the target, and without hint text does nothing else. */
  lemma FieldInitInsertsDummy(d: Doc<BlurHandler, FocusHandler>, o: Options, i: nat)
    requires i < |d.nodes| && o.mode == Str("field")
    ensures var r := InitOne(d, o, i).nodes;
            && |r| == |d.nodes| + 1 && r[i + 1].uid == d.nodes[i].uid
            && r[i].uid == d.next && r[i].tag == "input" && r[i].id == "" && r[i].hintFor == None
    ensures TextHint(o, d.nodes[i]) == "" ==>
      InitOne(d, o, i) == Doc(d.nodes[..i] + [NewHiddenInput(d.next, "", None)] + d.nodes[i..], d.next + 1)
  {
    FieldInitInPlace(d, o, i);
    var inserted := InsertDummy(d.nodes, d.next, i);
    assert inserted[i] == NewHiddenInput(d.next, "", None);
    assert SameIdentity(inserted[i], InitOne(d, o, i).nodes[i]);
    assert SameIdentity(inserted[i + 1], InitOne(d, o, i).nodes[i + 1]);
  }

  /** What a field-mode init with hint text leaves, on a target without blur
      handlers: the decorated dummy just before the target, shown exactly when
      the target is empty, the target hidden exactly then, and every other
      element as it was. */
  ghost predicate InitOutcome(d: Doc<BlurHandler, FocusHandler>, o: Options, i: nat, r: seq<Element>)
    requires i < |d.nodes|
  {
    var t := d.nodes[i];
    && |r| == |d.nodes| + 1
    && (forall k :: 0 <= k < i ==> r[k] == d.nodes[k])
    && r[i] == Decorate(NewHiddenInput(d.next, "", None), o, t, TextHint(o, t)).(visible := t.value == "")
    && r[i + 1] == t.(blurHandlers := [FieldBlur], visible := t.visible && t.value != "")
    && (forall k :: i + 1 < k < |r| ==> r[k] == d.nodes[k - 1])
  }

  /** The page the init fires its blur on. */
  function BoundPage(d: Doc<BlurHandler, FocusHandler>, o: Options, i: nat): (r: seq<Element>)
    requires i < |d.nodes|
    ensures |r| == |d.nodes| + 1
  {
    var t := d.nodes[i];
    InsertDummy(d.nodes, d.next, i)
      [i := Decorate(NewHiddenInput(d.next, "", None), o, t, TextHint(o, t))]
      [i + 1 := t.(blurHandlers := [FieldBlur])]
  }

  lemma FieldInitBlur(d: Doc<BlurHandler, FocusHandler>, o: Options, i: nat)
    requires i < |d.nodes| && o.mode == Str("field")
    requires d.nodes[i].blurHandlers == [] && TextHint(o, d.nodes[i]) != ""
    ensures InitOne(d, o, i) == Doc(FieldOnBlur(BoundPage(d, o, i), i + 1), d.next + 1)
  {
    var t := d.nodes[i];
    var inserted := InsertDummy(d.nodes, d.next, i);
    assert inserted[i] == NewHiddenInput(d.next, "", None);
    var decorated := inserted[i := Decorate(NewHiddenInput(d.next, "", None), o, t, TextHint(o, t))];
    assert DecoratePrev(inserted, i + 1, o, t, TextHint(o, t)) == decorated;
    var bound := BoundPage(d, o, i);
    assert decorated[i + 1] == t && t.blurHandlers + [FieldBlur] == [FieldBlur];
    assert BindBlur(decorated, i + 1, FieldBlur) == bound;
    assert [FieldBlur][1..] == [];
    assert FireBlur(bound, i + 1) == FieldOnBlur(bound, i + 1);
  }

  lemma BlurOutcome(d: Doc<BlurHandler, FocusHandler>, o: Options, i: nat)
    requires i < |d.nodes|
    ensures InitOutcome(d, o, i, FieldOnBlur(BoundPage(d, o, i), i + 1))
  {
    var t := d.nodes[i];
    var bound := BoundPage(d, o, i);
    var inserted := InsertDummy(d.nodes, d.next, i);
    assert forall k :: 0 <= k < i ==> inserted[k] == d.nodes[k];
    assert forall k :: i + 1 < k < |inserted| ==> inserted[k] == d.nodes[k - 1];
    assert !bound[i].visible && bound[i].tag == "input";
    assert bound[i + 1] == t.(blurHandlers := [FieldBlur]);
    var r := FieldOnBlur(bound, i + 1);
    if t.value == "" {
      assert r == bound[i := Show(bound[i])][i + 1 := Hide(bound[i + 1])];
    } else {
      assert r == bound;
    }
  }

  /** Field-mode init with hint text on a target without blur handlers leaves
      the init outcome: on an empty target the dummy is shown and the target
      hidden; on a target with text the dummy stays hidden. */
  lemma FieldInitWithText(d: Doc<BlurHandler, FocusHandler>, o: Options, i: nat)
    requires i < |d.nodes| && o.mode == Str("field")
    requires d.nodes[i].blurHandlers == [] && TextHint(o, d.nodes[i]) != ""
    ensures InitOne(d, o, i).next == d.next + 1
    ensures InitOutcome(d, o, i, InitOne(d, o, i).nodes)
  {
    FieldInitBlur(d, o, i);
    BlurOutcome(d, o, i);
  }

  /** Two inputs side by side: a dummy at `s` and its target right after it. */
  ghost predicate Adjacent(nodes: seq<Element>, s: nat)
  {
    s + 1 < |nodes| && nodes[s].tag == "input" && nodes[s + 1].tag == "input"
  }

  /** Entering the dummy hides it and shows the input right after it. */
  lemma FieldFocusShowsNext(nodes: seq<Element>, s: nat)
    requires Adjacent(nodes, s)
    ensures FieldOnFocus(nodes, s) == nodes[s := Hide(nodes[s])][s + 1 := Show(nodes[s + 1])]
  {
  }

  /** Leaving an empty target shows the input right before it and hides the
      target; leaving a target with text changes nothing. */
  lemma FieldBlurShowsPrev(nodes: seq<Element>, s: nat)
    requires Adjacent(nodes, s)
    ensures nodes[s + 1].value == "" ==>
      FieldOnBlur(nodes, s + 1) == nodes[s := Show(nodes[s])][s + 1 := Hide(nodes[s + 1])]
    ensures nodes[s + 1].value != "" ==> FieldOnBlur(nodes, s + 1) == nodes
  {
  }

  /** Each field-mode handler fired twice in a row is the same as once. */
  lemma FieldHandlersIdempotent(nodes: seq<Element>, j: nat)
    requires j < |nodes|
    ensures FieldOnBlur(FieldOnBlur(nodes, j), j) == FieldOnBlur(nodes, j)
    ensures FieldOnFocus(FieldOnFocus(nodes, j), j) == FieldOnFocus(nodes, j)
  {
    var f := FieldOnFocus(nodes, j);
    var hidden := nodes[j := Hide(nodes[j])];
    match NextInput(hidden, j) {
      case Some(n) =>
        assert f[j := Hide(f[j])] == hidden[n := Show(hidden[n])];
      case None =>
    }
  }

  /** A user's moves on a dummy and its target. */
  datatype Move = EnterDummy | LeaveTarget

  function Step(nodes: seq<Element>, s: nat, m: Move): (r: seq<Element>)
    requires s + 1 < |nodes|
    ensures Restyled(nodes, r)
  {
    match m
    case EnterDummy => FieldOnFocus(nodes, s)
    case LeaveTarget => FieldOnBlur(nodes, s + 1)
  }

  function Moves(nodes: seq<Element>, s: nat, moves: seq<Move>): (r: seq<Element>)
    requires s + 1 < |nodes|
    ensures Restyled(nodes, r)
    decreases |moves|
  {
    if moves == [] then nodes else Moves(Step(nodes, s, moves[0]), s, moves[1..])
  }

  lemma StepEffect(nodes: seq<Element>, s: nat, m: Move)
    requires Adjacent(nodes, s) && nodes[s + 1].value == ""
    ensures var r := Step(nodes, s, m);
            && Adjacent(r, s) && r[s + 1].value == ""
            && r[s].visible == (m == LeaveTarget) && r[s + 1].visible == (m == EnterDummy)
  {
    match m {
      case EnterDummy => FieldFocusShowsNext(nodes, s);
      case LeaveTarget => FieldBlurShowsPrev(nodes, s);
    }
  }

  /** On an empty target, after any moves exactly one of dummy and target is
      visible, and the last move decides which. */
  lemma {:induction false} DummyAndTargetAlternate(nodes: seq<Element>, s: nat, moves: seq<Move>)
    requires Adjacent(nodes, s) && nodes[s + 1].value == "" && moves != []
    ensures var r := Moves(nodes, s, moves);
            && r[s].visible == (moves[|moves| - 1] == LeaveTarget)
            && r[s + 1].visible == (moves[|moves| - 1] == EnterDummy)
    decreases |moves|
  {
    StepEffect(nodes, s, moves[0]);
    if |moves| > 1 {
      DummyAndTargetAlternate(Step(nodes, s, moves[0]), s, moves[1..]);
      assert moves[1..][|moves[1..]| - 1] == moves[|moves| - 1];
    }
  }

  /** A second field-mode init of a target that already has its dummy before
      it puts a new dummy in between: entering the old dummy then shows the
      new dummy and leaves the target as it was. */
  lemma ReinitRedirectsOldDummy(d: Doc<BlurHandler, FocusHandler>, o: Options, i: nat)
    requires 0 < i < |d.nodes| && o.mode == Str("field")
    requires d.nodes[i - 1].tag == "input"
    ensures var r := InitOne(d, o, i).nodes;
            var f := FieldOnFocus(r, i - 1);
            && r[i].uid == d.next && r[i + 1].uid == d.nodes[i].uid
            && f[i].visible && f[i + 1] == r[i + 1]
  {
    FieldInitInPlace(d, o, i);
    var inserted := InsertDummy(d.nodes, d.next, i);
    assert inserted[i - 1] == d.nodes[i - 1] && inserted[i] == NewHiddenInput(d.next, "", None);
    var r := InitOne(d, o, i).nodes;
    assert SameIdentity(inserted[i - 1], r[i - 1]) && SameIdentity(inserted[i], r[i]);
    assert SameIdentity(inserted[i + 1], r[i + 1]);
  }

  /** A class-mode handler keeps the options of the call that bound it. On a
      field set up twice, the blur runs both calls' handlers in order: the
      earlier call's hint class is still added, and stays unless the later
      call names it as its default class. */
  lemma ClassHandlersKeepTheirOptions(d: Doc<BlurHandler, FocusHandler>, o1: Options, o2: Options, i: nat)
    requires i < |d.nodes| && d.nodes[i].blurHandlers == []
    requires o1.mode == Str("class") && o2.mode == Str("class")
    ensures var r := InitOne(InitOne(d, o1, i), o2, i).nodes[i];
            && r.blurHandlers == [ClassBlur(o1), ClassBlur(o2)]
            && r.focusHandlers == d.nodes[i].focusHandlers + [ClassFocus(o1), ClassFocus(o2)]
            && (d.nodes[i].value == "" ==> Toggle.Named(o2.hintClass) <= r.classes)
            && (d.nodes[i].value == "" && Toggle.Named(o1.hintClass) !! Toggle.Named(o2.defaultClass) ==>
                 Toggle.Named(o1.hintClass) <= r.classes)
  {
    var t := d.nodes[i];
    var b1 := d.nodes[i := t.(blurHandlers := [ClassBlur(o1)], focusHandlers := t.focusHandlers + [ClassFocus(o1)])];
    assert [ClassBlur(o1)][1..] == [];
    var n1 := FireBlur(b1, i);
    assert b1[i].blurHandlers == [ClassBlur(o1)];
    assert RunBlur(b1, i, [ClassBlur(o1)]) == RunBlur(OnBlur(b1, i, ClassBlur(o1)), i, []);
    assert n1 == OnBlur(b1, i, ClassBlur(o1));
    var c1 := Toggle.ClassesOnBlur(t.classes, t.value, o1.hintClass, o1.defaultClass);
    assert n1[i] == b1[i].(classes := c1);
    var u := n1[i];
    var b2 := n1[i := u.(blurHandlers := [ClassBlur(o1), ClassBlur(o2)], focusHandlers := u.focusHandlers + [ClassFocus(o2)])];
    var m := OnBlur(b2, i, ClassBlur(o1));
    assert [ClassBlur(o1), ClassBlur(o2)][1..] == [ClassBlur(o2)];
    assert [ClassBlur(o2)][1..] == [];
    assert b2[i].blurHandlers == [ClassBlur(o1), ClassBlur(o2)];
    assert RunBlur(b2, i, [ClassBlur(o1), ClassBlur(o2)]) == RunBlur(m, i, [ClassBlur(o2)]);
    assert RunBlur(m, i, [ClassBlur(o2)]) == RunBlur(OnBlur(m, i, ClassBlur(o2)), i, []);
    assert FireBlur(b2, i) == OnBlur(m, i, ClassBlur(o2));
    var c2 := Toggle.ClassesOnBlur(c1, t.value, o1.hintClass, o1.defaultClass);
    assert m[i] == b2[i].(classes := c2);
    var c3 := Toggle.ClassesOnBlur(c2, t.value, o2.hintClass, o2.defaultClass);
    assert FireBlur(b2, i)[i] == b2[i].(classes := c3);
    assert t.blurHandlers + [ClassBlur(o1)] == [ClassBlur(o1)];
    assert InitOne(d, o1, i) == ToggleInit(d, i, ClassBlur(o1), ClassFocus(o1)) == Doc(n1, d.next);
    assert u.blurHandlers + [ClassBlur(o2)] == [ClassBlur(o1), ClassBlur(o2)];
    assert InitOne(Doc(n1, d.next), o2, i).nodes[i] == b2[i].(classes := c3);
    assert t.value == "" ==> Toggle.Named(o2.hintClass) <= c3;
  }
}
