/** What revision 1.5 promises about its options, its element loop and the
    field-mode pair of shadow and target. */
module HintV15Lemmas {
  import opened JsValues
  import opened Dom
  import opened HintV15

  // ---------------------------------------------------------------------
  // Options and dispatch

  /** A string argument replaces the hint and nothing else; an object
      replaces exactly the options it names. */
  lemma ArgumentsSetOnlyWhatTheyName(o: Options, arg: Arg, name: string)
    requires name in OptionNames
    ensures arg.Text? && name != "hint" ==> Merge(o, arg).Get(name) == o.Get(name)
    ensures arg.Settings? && name !in arg.fields ==> Merge(o, arg).Get(name) == o.Get(name)
    ensures arg.Absent? ==> Merge(o, arg) == o
  {
  }

  /** The options persist: what one `init` merges in is still in force after
      a later call that does not name it. */
  lemma SettingsPersist(o: Options, fields: map<string, OptVal>, later: Arg, name: string)
    requires name in OptionNames && name in fields
    requires !(later.Settings? && name in later.fields)
    requires !(later.Text? && later.s != "" && name == "hint")
    ensures Merge(Merge(o, Settings(fields)), later).Get(name) == fields[name]
  {
  }

  /** `ztInputHint('destroy')` is not a method name: it is passed to `init`,
      which makes "destroy" the hint text. */
  lemma DestroyIsHintText(o: Options, second: Arg, s: string)
    requires s == "destroy"
    ensures Route(Text(s), second) == InitRequest(Text(s))
    ensures Merge(o, Text(s)).hint == Str(s)
  {
    assert s !in InheritedNames;
  }

  // ---------------------------------------------------------------------
  // The element loop of `init`

  /** `init` stops at the first element that is not a text or password
      input: the elements after it are never set up. */
  lemma {:induction false} InitStopsAtFirstNonText(d: Doc<BlurHandler, FocusHandler>, o: Options, coll: seq<Uid>, j: nat)
    requires WellFormed(d) && InPage(d.nodes, coll) && j < |coll|
    requires !IsTextInput(d.nodes[IndexOf(d.nodes, coll[j]).value])
    ensures InitAll(d, o, coll) == InitAll(d, o, coll[..j])
    decreases j
  {
    var i := IndexOf(d.nodes, coll[0]).value;
    if j > 0 && IsTextInput(d.nodes[i]) {
      InitOneKeeps(d, o, i);
      var d1 := InitOne(d, o, i);
      assert coll[..j][1..] == coll[1..][..j - 1];
      assert coll[1..][j - 1] == coll[j];
      KeepsTextInput(d.nodes, d1.nodes, coll[1..], j - 1);
      InitStopsAtFirstNonText(d1, o, coll[1..], j - 1);
      assert InitAll(d, o, coll) == InitAll(d1, o, coll[1..]);
      assert InitAll(d, o, coll[..j]) == InitAll(d1, o, coll[..j][1..]);
    }
  }

  // ---------------------------------------------------------------------
  // Field mode: the shadow and its target

  /** The shadow at `s` and the target at `t` find each other: the shadow id
      of the target finds the shadow first, and the shadow's `hintFor` is the
      target's id, which finds the target as an input. */
  ghost predicate Linked(nodes: seq<Element>, s: nat, t: nat)
  {
    && s < |nodes| && t < |nodes| && s != t
    && nodes[t].id != ""
    && FirstById(nodes, ShadowId(nodes[t])) == Some(s)
    && nodes[s].hintFor == Some(nodes[t].id)
    && FindInputById(nodes, nodes[t].id) == Some(t)
  }

  /** Handlers never change ids or tags, so the pair stays linked. */
  lemma LinkedRestyled(a: seq<Element>, b: seq<Element>, s: nat, t: nat)
    requires Linked(a, s, t) && Restyled(a, b)
    ensures Linked(b, s, t)
  {
    FirstByIdSameIds(a, b, ShadowId(a[t]));
    FirstByIdSameIds(a, b, a[t].id);
  }

  /** Focusing the shadow hides it and shows the target; nothing else changes. */
  lemma FieldFocusShowsTarget(nodes: seq<Element>, s: nat, t: nat)
    requires Linked(nodes, s, t)
    ensures FieldOnFocus(nodes, s) == nodes[s := Hide(nodes[s])][t := Show(nodes[t])]
  {
    var hidden := nodes[s := Hide(nodes[s])];
    FirstByIdSameIds(nodes, hidden, nodes[t].id);
  }

  /** Blurring an empty target shows its shadow and hides it; blurring a
      target with text changes nothing. */
  lemma FieldBlurShowsShadow(nodes: seq<Element>, s: nat, t: nat)
    requires Linked(nodes, s, t)
    ensures nodes[t].value == "" ==> FieldOnBlur(nodes, t) == nodes[s := Show(nodes[s])][t := Hide(nodes[t])]
    ensures nodes[t].value != "" ==> FieldOnBlur(nodes, t) == nodes
  {
  }

  /** The field-mode blur handler fired twice in a row is the same as once. */
  lemma FieldBlurIdempotent(nodes: seq<Element>, j: nat)
    requires j < |nodes|
    ensures FieldOnBlur(FieldOnBlur(nodes, j), j) == FieldOnBlur(nodes, j)
  {
    FirstByIdSameIds(nodes, FieldOnBlur(nodes, j), ShadowId(nodes[j]));
  }

  /** The field-mode focus handler fired twice in a row is the same as once. */
  lemma FieldFocusIdempotent(nodes: seq<Element>, j: nat)
    requires j < |nodes|
    ensures FieldOnFocus(FieldOnFocus(nodes, j), j) == FieldOnFocus(nodes, j)
  {
    var f := FieldOnFocus(nodes, j);
    var hidden := nodes[j := Hide(nodes[j])];
    var hidden2 := f[j := Hide(f[j])];
    FirstByIdSameIds(hidden, hidden2, HintForText(nodes[j]));
    match FindInputById(hidden, HintForText(nodes[j])) {
      case Some(x) =>
        if x == j {
          assert hidden2 == hidden;
        } else {
          assert hidden2 == hidden[x := Show(hidden[x])];
        }
      case None =>
    }
  }

  /** A user's moves on a linked pair: entering the shadow or leaving the target. */
  datatype PairEvent = FocusShadow | BlurTarget

  /** The handler a move runs. */
  function PairStep(nodes: seq<Element>, s: nat, t: nat, e: PairEvent): (r: seq<Element>)
    requires s < |nodes| && t < |nodes|
    ensures Restyled(nodes, r)
  {
    match e
    case FocusShadow => FieldOnFocus(nodes, s)
    case BlurTarget => FieldOnBlur(nodes, t)
  }

  function PairRun(nodes: seq<Element>, s: nat, t: nat, events: seq<PairEvent>): (r: seq<Element>)
    requires s < |nodes| && t < |nodes|
    ensures Restyled(nodes, r)
    decreases |events|
  {
    if events == [] then nodes
    else PairRun(PairStep(nodes, s, t, events[0]), s, t, events[1..])
  }

  /** One move on an empty linked target keeps the pair linked and the target
      empty, and leaves visible exactly the element the move calls for. */
  lemma PairStepEffect(nodes: seq<Element>, s: nat, t: nat, e: PairEvent)
    requires Linked(nodes, s, t) && nodes[t].value == ""
    ensures var r := PairStep(nodes, s, t, e);
            && Linked(r, s, t) && r[t].value == ""
            && r[s].visible == (e == BlurTarget) && r[t].visible == (e == FocusShadow)
  {
    LinkedRestyled(nodes, PairStep(nodes, s, t, e), s, t);
    match e {
      case FocusShadow => FieldFocusShowsTarget(nodes, s, t);
      case BlurTarget => FieldBlurShowsShadow(nodes, s, t);
    }
  }

  /** On an empty target, after any moves exactly one of shadow and target
      is visible, and the last move decides which: the target after entering
      the shadow, the shadow after leaving the target. */
  lemma {:induction false} ShadowAndTargetAlternate(nodes: seq<Element>, s: nat, t: nat, events: seq<PairEvent>)
    requires Linked(nodes, s, t) && nodes[t].value == "" && events != []
    ensures var r := PairRun(nodes, s, t, events);
            && r[s].visible == (events[|events| - 1] == BlurTarget)
            && r[t].visible == (events[|events| - 1] == FocusShadow)
    decreases |events|
  {
    var next := PairStep(nodes, s, t, events[0]);
    PairStepEffect(nodes, s, t, events[0]);
    assert PairRun(nodes, s, t, events) == PairRun(next, s, t, events[1..]);
    if |events| > 1 {
      ShadowAndTargetAlternate(next, s, t, events[1..]);
      assert events[1..][|events[1..]| - 1] == events[|events| - 1];
    } else {
      assert PairRun(next, s, t, events[1..]) == next;
    }
  }

  // ---------------------------------------------------------------------
  // Field mode: what `init` leaves on the page

  /** Without hint text, field mode still inserts the hidden shadow, with its
      id and `hintFor`, before the target (the insertion comes before the
      test of the hint text), and does nothing else: the shadow stays empty
      and hidden, and the target gets no handler and is not blurred. */
  lemma FieldInitWithoutText(d: Doc<BlurHandler, FocusHandler>, o: Options, i: nat)
    requires i < |d.nodes| && o.mode == Str("field") && TextHint(o, d.nodes[i]) == ""
    ensures var r := InitOne(d, o, i);
      && r.next == d.next + 1 && |r.nodes| == |d.nodes| + 1
      && r.nodes[i] == NewHiddenInput(d.next, ShadowId(d.nodes[i]), Some(Key(d.nodes[i])))
      && (forall k :: 0 <= k < i ==> r.nodes[k] == d.nodes[k])
      && (forall k :: i <= k < |d.nodes| ==> r.nodes[k + 1] == d.nodes[k])
  {
    var r := InitOne(d, o, i).nodes;
    assert r == d.nodes[..i] + [NewHiddenInput(d.next, ShadowPrefix + Key(d.nodes[i]), Some(Key(d.nodes[i])))] + d.nodes[i..];
  }

  /** The shadow a field-mode init with hint text decorates, for the target
      at `i`. */
  function DecoratedShadow(d: Doc<BlurHandler, FocusHandler>, o: Options, i: nat): Element
    requires i < |d.nodes|
  {
    var t := d.nodes[i];
    Decorate(NewHiddenInput(d.next, ShadowId(t), Some(Key(t))), o, t, TextHint(o, t))
  }

  /** No element has the target's shadow id yet. */
  predicate Fresh(nodes: seq<Element>, i: nat)
    requires i < |nodes|
  {
    FirstById(nodes, ShadowId(nodes[i])).None?
  }

  /** One blur handler of element `j` leaves alone every other element
      except the one its shadow id finds, and keeps what that id finds. */
  lemma OnBlurLeavesOthers(nodes: seq<Element>, o: Options, j: nat, h: BlurHandler, k: nat)
    requires j < |nodes| && k < |nodes| && k != j
    requires FirstById(nodes, ShadowId(nodes[j])) != Some(k)
    ensures var next := OnBlur(nodes, o, j, h);
            && next[k] == nodes[k]
            && FirstById(next, ShadowId(next[j])) == FirstById(nodes, ShadowId(nodes[j]))
  {
    RestyledShadowLookup(nodes, OnBlur(nodes, o, j, h), j);
  }

  /** Blur handlers of element `j` leave alone every other element except
      the one its shadow id finds. */
  lemma {:induction false} BlurLeavesOthers(nodes: seq<Element>, o: Options, j: nat, hs: seq<BlurHandler>, k: nat)
    requires j < |nodes| && k < |nodes| && k != j
    requires FirstById(nodes, ShadowId(nodes[j])) != Some(k)
    ensures RunBlur(nodes, o, j, hs)[k] == nodes[k]
    decreases |hs|
  {
    if hs != [] {
      var next := OnBlur(nodes, o, j, hs[0]);
      OnBlurLeavesOthers(nodes, o, j, hs[0], k);
      BlurLeavesOthers(next, o, j, hs[1..], k);
      assert RunBlur(nodes, o, j, hs) == RunBlur(next, o, j, hs[1..]);
    }
  }

  /** The page a field-mode init with hint text fires the blur on: the
      shadow inserted, the element its id finds decorated and the field-mode
      handler bound on the target. */
  ghost function FieldBound(d: Doc<BlurHandler, FocusHandler>, o: Options, i: nat): (r: seq<Element>)
    requires i < |d.nodes|
    ensures |r| == |d.nodes| + 1
  {
    var t := d.nodes[i];
    BindBlur(DecorateFirst(InsertShadow(d.nodes, d.next, i), ShadowId(t), o, t, TextHint(o, t)), i + 1, FieldBlur)
  }

  /** Field-mode init with hint text, step by step. */
  lemma FieldInitSteps(d: Doc<BlurHandler, FocusHandler>, o: Options, i: nat)
    requires i < |d.nodes| && o.mode == Str("field") && TextHint(o, d.nodes[i]) != ""
    ensures InitOne(d, o, i) == Doc(FireBlur(FieldBound(d, o, i), o, i + 1), d.next + 1)
  {
  }

  /** The field-mode blur of element `j` whose shadow is just before it:
      when the target is empty the shadow is shown and the target hidden;
      nothing else changes. */
  lemma FieldBlurShadowBefore(nodes: seq<Element>, j: nat)
    requires 0 < j < |nodes| && FirstById(nodes, ShadowId(nodes[j])) == Some(j - 1)
    ensures var r := FieldOnBlur(nodes, j);
            && |r| == |nodes|
            && (forall k :: 0 <= k < |nodes| && k != j - 1 && k != j ==> r[k] == nodes[k])
            && r[j - 1] == (if nodes[j].value == "" then Show(nodes[j - 1]) else nodes[j - 1])
            && r[j] == (if nodes[j].value == "" then Hide(nodes[j]) else nodes[j])
  {
  }

  /** The page a fresh field-mode init fires the blur on: the shadow
      decorated and the field-mode handler bound on the target. */
  function FreshBound(d: Doc<BlurHandler, FocusHandler>, o: Options, i: nat): (r: seq<Element>)
    requires i < |d.nodes|
    ensures |r| == |d.nodes| + 1
  {
    var t := d.nodes[i];
    InsertShadow(d.nodes, d.next, i)[i := DecoratedShadow(d, o, i)][i + 1 := t.(blurHandlers := [FieldBlur])]
  }

  /** On a fresh target the shadow id finds the new shadow, so the page the
      blur is fired on is `FreshBound`. */
  lemma FreshFieldBound(d: Doc<BlurHandler, FocusHandler>, o: Options, i: nat)
    requires WellFormed(d) && i < |d.nodes| && Fresh(d.nodes, i) && d.nodes[i].blurHandlers == []
    ensures FieldBound(d, o, i) == FreshBound(d, o, i)
    ensures FirstById(FreshBound(d, o, i), ShadowId(d.nodes[i])) == Some(i)
  {
    var t := d.nodes[i];
    var x := ShadowId(t);
    var inserted := InsertShadow(d.nodes, d.next, i);
    assert inserted[i] == NewHiddenInput(d.next, x, Some(Key(t)));
    assert forall k :: 0 <= k < i ==> inserted[k] == d.nodes[k];
    FirstByIdAt(inserted, x, i);
    var decorated := inserted[i := DecoratedShadow(d, o, i)];
    assert DecorateFirst(inserted, x, o, t, TextHint(o, t)) == decorated;
    var bound := FreshBound(d, o, i);
    assert decorated[i + 1] == t && t.blurHandlers + [FieldBlur] == [FieldBlur];
    assert BindBlur(decorated, i + 1, FieldBlur) == bound;
    FirstByIdSameIds(inserted, bound, x);
  }

  lemma FreshFieldInitBlur(d: Doc<BlurHandler, FocusHandler>, o: Options, i: nat)
    requires WellFormed(d) && i < |d.nodes| && o.mode == Str("field")
    requires Fresh(d.nodes, i) && d.nodes[i].blurHandlers == []
    requires TextHint(o, d.nodes[i]) != ""
    ensures InitOne(d, o, i) == Doc(FieldOnBlur(FreshBound(d, o, i), i + 1), d.next + 1)
    ensures FirstById(FreshBound(d, o, i), ShadowId(d.nodes[i])) == Some(i)
  {
    var bound := FreshBound(d, o, i);
    FreshFieldBound(d, o, i);
    assert bound[i + 1].blurHandlers == [FieldBlur] && [FieldBlur][1..] == [];
    assert FireBlur(bound, o, i + 1) == FieldOnBlur(bound, i + 1);
    FieldInitSteps(d, o, i);
  }


  /** What a fresh field-mode init with hint text leaves on the page: the
      decorated shadow just before the target, shown exactly when the target
      is empty, the target hidden exactly then and holding the field-mode
      blur handler, and every other element as it was. */
  ghost predicate FreshOutcome(d: Doc<BlurHandler, FocusHandler>, o: Options, i: nat, r: seq<Element>)
    requires i < |d.nodes|
  {
    var t := d.nodes[i];
    && |r| == |d.nodes| + 1
    && (forall k :: 0 <= k < i ==> r[k] == d.nodes[k])
    && r[i] == DecoratedShadow(d, o, i).(visible := t.value == "")
    && r[i + 1] == t.(blurHandlers := [FieldBlur], visible := t.visible && t.value != "")
    && (forall k :: i + 1 < k < |r| ==> r[k] == d.nodes[k - 1])
  }

  /** The bound page, element by element. */
  lemma FreshBoundShape(d: Doc<BlurHandler, FocusHandler>, o: Options, i: nat)
    requires i < |d.nodes|
    ensures var bound := FreshBound(d, o, i);
            && (forall k :: 0 <= k < i ==> bound[k] == d.nodes[k])
            && bound[i] == DecoratedShadow(d, o, i) && !bound[i].visible
            && bound[i + 1] == d.nodes[i].(blurHandlers := [FieldBlur])
            && (forall k :: i + 1 < k < |bound| ==> bound[k] == d.nodes[k - 1])
  {
    var inserted := InsertShadow(d.nodes, d.next, i);
    assert forall k :: 0 <= k < i ==> inserted[k] == d.nodes[k];
    assert forall k :: i + 1 < k < |inserted| ==> inserted[k] == d.nodes[k - 1];
  }

  /** The field-mode blur run on a page shaped like a fresh init's. */
  lemma BlurredFreshBound(d: Doc<BlurHandler, FocusHandler>, o: Options, i: nat, bound: seq<Element>, r: seq<Element>)
    requires i < |d.nodes| && |bound| == |d.nodes| + 1 && |r| == |bound|
    requires forall k :: 0 <= k < i ==> bound[k] == d.nodes[k]
    requires bound[i] == DecoratedShadow(d, o, i) && !bound[i].visible
    requires bound[i + 1] == d.nodes[i].(blurHandlers := [FieldBlur])
    requires forall k :: i + 1 < k < |bound| ==> bound[k] == d.nodes[k - 1]
    requires forall k :: 0 <= k < |bound| && k != i && k != i + 1 ==> r[k] == bound[k]
    requires r[i] == (if bound[i + 1].value == "" then Show(bound[i]) else bound[i])
    requires r[i + 1] == (if bound[i + 1].value == "" then Hide(bound[i + 1]) else bound[i + 1])
    ensures FreshOutcome(d, o, i, r)
  {
  }

  lemma FreshBlurOutcome(d: Doc<BlurHandler, FocusHandler>, o: Options, i: nat)
    requires i < |d.nodes|
    requires FirstById(FreshBound(d, o, i), ShadowId(d.nodes[i])) == Some(i)
    ensures FreshOutcome(d, o, i, FieldOnBlur(FreshBound(d, o, i), i + 1))
  {
    var bound := FreshBound(d, o, i);
    FreshBoundShape(d, o, i);
    assert ShadowId(bound[i + 1]) == ShadowId(d.nodes[i]);
    FieldBlurShadowBefore(bound, i + 1);
    BlurredFreshBound(d, o, i, bound, FieldOnBlur(bound, i + 1));
  }


  /** Field-mode init on a target without a shadow, with hint text and no
      blur handler yet, leaves the fresh outcome: on an empty target the
      shadow is shown and the target hidden, on a target with text the shadow
      stays hidden. Nothing else changes. */
  lemma FreshFieldInit(d: Doc<BlurHandler, FocusHandler>, o: Options, i: nat)
    requires WellFormed(d) && i < |d.nodes| && o.mode == Str("field")
    requires Fresh(d.nodes, i) && d.nodes[i].blurHandlers == []
    requires TextHint(o, d.nodes[i]) != ""
    ensures InitOne(d, o, i).next == d.next + 1
    ensures FreshOutcome(d, o, i, InitOne(d, o, i).nodes)
  {
    FreshFieldInitBlur(d, o, i);
    FreshBlurOutcome(d, o, i);
  }

  /** Removing the shadow after a fresh init leaves the original page with
      the target as the init left it. */
  lemma RemoveFreshShadow(d: Doc<BlurHandler, FocusHandler>, o: Options, i: nat, r: seq<Element>)
    requires i < |d.nodes| && Fresh(d.nodes, i) && FreshOutcome(d, o, i, r)
    ensures var t := d.nodes[i];
            RemoveFirst(r, ShadowId(t))
              == d.nodes[i := t.(blurHandlers := [FieldBlur], visible := t.visible && t.value != "")]
  {
    var t := d.nodes[i];
    FirstByIdAt(r, ShadowId(t), i);
    var removed := r[..i] + r[i + 1..];
    assert RemoveFirst(r, ShadowId(t)) == removed;
    var target := d.nodes[i := t.(blurHandlers := [FieldBlur], visible := t.visible && t.value != "")];
    forall k | 0 <= k < |target|
      ensures removed[k] == target[k]
    {
      if k < i {
        assert removed[k] == r[k];
      } else {
        assert removed[k] == r[k + 1];
      }
    }
    assert removed == target;
  }

  lemma DestroyFreshOutcome(d: Doc<BlurHandler, FocusHandler>, o: Options, i: nat, r: seq<Element>)
    requires WellFormed(d) && i < |d.nodes| && Fresh(d.nodes, i) && FreshOutcome(d, o, i, r)
    requires d.nodes[i].blurHandlers == [] && d.nodes[i].focusHandlers == []
    ensures var t := d.nodes[i];
            DestroyOne(r, Key(t), t.uid) == d.nodes[i := t.(visible := t.visible && t.value != "")]
  {
    var t := d.nodes[i];
    RemoveFreshShadow(d, o, i, r);
    var removed := d.nodes[i := t.(blurHandlers := [FieldBlur], visible := t.visible && t.value != "")];
    IndexOfSameUids(removed, d.nodes, t.uid);
    IndexOfAt(d, i);
    assert Unbind(removed, t.uid) == removed[i := removed[i].(blurHandlers := [], focusHandlers := [])];
  }

  /** Destroying right after a fresh field-mode init gives back the page the
      target was on, except that an empty target stays hidden: the shadow is
      removed but the target is never shown again. */
  lemma FreshInitThenDestroy(d: Doc<BlurHandler, FocusHandler>, o: Options, i: nat)
    requires WellFormed(d) && i < |d.nodes| && o.mode == Str("field")
    requires Fresh(d.nodes, i) && d.nodes[i].blurHandlers == [] && d.nodes[i].focusHandlers == []
    requires TextHint(o, d.nodes[i]) != ""
    ensures var t := d.nodes[i];
            DestroyOne(InitOne(d, o, i).nodes, Key(t), t.uid) == d.nodes[i := t.(visible := t.visible && t.value != "")]
  {
    FreshFieldInit(d, o, i);
    DestroyFreshOutcome(d, o, i, InitOne(d, o, i).nodes);
  }

  lemma NameOnlyOutcome(d: Doc<BlurHandler, FocusHandler>, o: Options, i: nat, r: seq<Element>)
    requires i < |d.nodes| && FreshOutcome(d, o, i, r)
    requires d.nodes[i].id == "" && d.nodes[i].value == ""
    requires FirstById(d.nodes, d.nodes[i].name).None?
    ensures var f := FieldOnFocus(r, i);
            && r[i].visible && !r[i + 1].visible
            && !f[i].visible && !f[i + 1].visible
  {
    var t := d.nodes[i];
    var hidden := r[i := Hide(r[i])];
    assert HintForText(hidden[i]) == t.name;
    assert |ShadowId(t)| != |t.name|;
    if t.name != "" {
      forall k | 0 <= k < |hidden|
        ensures hidden[k].id != t.name
      {
        if k < i {
          assert hidden[k] == d.nodes[k];
        } else if k > i + 1 {
          assert hidden[k] == d.nodes[k - 1];
        }
      }
    }
  }

  /** The as-written focus lookup goes by id only: for a target known by its
      name alone, entering the shadow after a fresh init on the empty field
      hides the shadow and leaves the target hidden as well. */
  lemma NameOnlyTargetStaysHidden(d: Doc<BlurHandler, FocusHandler>, o: Options, i: nat)
    requires WellFormed(d) && i < |d.nodes| && o.mode == Str("field")
    requires Fresh(d.nodes, i) && d.nodes[i].blurHandlers == []
    requires TextHint(o, d.nodes[i]) != ""
    requires d.nodes[i].id == "" && d.nodes[i].value == ""
    requires FirstById(d.nodes, d.nodes[i].name).None?
    ensures var r := InitOne(d, o, i).nodes;
            var f := FieldOnFocus(r, i);
            && r[i].visible && !r[i + 1].visible
            && !f[i].visible && !f[i + 1].visible
  {
    FreshFieldInit(d, o, i);
    NameOnlyOutcome(d, o, i, InitOne(d, o, i).nodes);
  }

  lemma LinksOutcome(d: Doc<BlurHandler, FocusHandler>, o: Options, i: nat, r: seq<Element>)
    requires i < |d.nodes| && Fresh(d.nodes, i) && FreshOutcome(d, o, i, r)
    requires d.nodes[i].id != "" && FindInputById(d.nodes, d.nodes[i].id) == Some(i)
    ensures Linked(r, i, i + 1)
  {
    var t := d.nodes[i];
    FirstByIdAt(r, ShadowId(t), i);
    FirstByIdAt(r, t.id, i + 1);
  }

  /** After a fresh init with hint text, a target with an id that finds it
      and its new shadow are linked. */
  lemma FreshInitLinks(d: Doc<BlurHandler, FocusHandler>, o: Options, i: nat)
    requires WellFormed(d) && i < |d.nodes| && o.mode == Str("field")
    requires Fresh(d.nodes, i) && d.nodes[i].blurHandlers == []
    requires TextHint(o, d.nodes[i]) != ""
    requires d.nodes[i].id != "" && FindInputById(d.nodes, d.nodes[i].id) == Some(i)
    ensures Linked(InitOne(d, o, i).nodes, i, i + 1)
  {
    FreshFieldInit(d, o, i);
    LinksOutcome(d, o, i, InitOne(d, o, i).nodes);
  }

  /** `container.blur()` on element `j` leaves alone every other element
      except the one its shadow id finds. */
  lemma FireBlurLeavesOthers(nodes: seq<Element>, o: Options, j: nat, k: nat, n: Element)
    requires j < |nodes| && k < |nodes| && k != j && nodes[k] == n
    requires FirstById(nodes, ShadowId(nodes[j])) != Some(k)
    ensures FireBlur(nodes, o, j)[k] == n
  {
    BlurLeavesOthers(nodes, o, j, nodes[j].blurHandlers, k);
  }


  /** When the shadow id of element `i + 1` finds an element before `i`,
      its blur leaves element `i` as it was. */
  lemma FireBlurKeepsEarlier(nodes: seq<Element>, o: Options, i: nat, s: nat, n: Element)
    requires i + 1 < |nodes| && s < i && nodes[i] == n
    requires FirstById(nodes, ShadowId(nodes[i + 1])) == Some(s)
    ensures FireBlur(nodes, o, i + 1)[i] == n
  {
    assert FirstById(nodes, ShadowId(nodes[i + 1])) != Some(i);
    FireBlurLeavesOthers(nodes, o, i + 1, i, n);
  }

  /** Before the blur of a second init: the new shadow at `i` is still
      bare, and the target's shadow id still finds the old one. */
  lemma StrayShadowBound(d: Doc<BlurHandler, FocusHandler>, o: Options, i: nat, s: nat)
    requires i < |d.nodes| && s < i
    requires FirstById(d.nodes, ShadowId(d.nodes[i])) == Some(s)
    ensures var bound := FieldBound(d, o, i);
            && bound[i] == NewHiddenInput(d.next, ShadowId(d.nodes[i]), Some(Key(d.nodes[i])))
            && FirstById(bound, ShadowId(bound[i + 1])) == Some(s)
  {
    var t := d.nodes[i];
    var x := ShadowId(t);
    var inserted := InsertShadow(d.nodes, d.next, i);
    assert inserted[i] == NewHiddenInput(d.next, x, Some(Key(t)));
    assert forall k :: 0 <= k <= s ==> inserted[k] == d.nodes[k];
    FirstByIdAt(inserted, x, s);
    var decorated := DecorateFirst(inserted, x, o, t, TextHint(o, t));
    assert decorated[i] == inserted[i];
    var bound := BindBlur(decorated, i + 1, FieldBlur);
    assert bound[i] == inserted[i] && bound[i + 1].id == t.id && bound[i + 1].name == t.name;
    FirstByIdSameIds(inserted, bound, x);
  }

  /** The blur a second init fires leaves the new shadow bare. */
  lemma StrayShadowFired(d: Doc<BlurHandler, FocusHandler>, o: Options, i: nat, s: nat)
    requires i < |d.nodes| && s < i
    requires FirstById(d.nodes, ShadowId(d.nodes[i])) == Some(s)
    ensures FireBlur(FieldBound(d, o, i), o, i + 1)[i]
              == NewHiddenInput(d.next, ShadowId(d.nodes[i]), Some(Key(d.nodes[i])))
  {
    StrayShadowBound(d, o, i, s);
    FireBlurKeepsEarlier(FieldBound(d, o, i), o, i, s, NewHiddenInput(d.next, ShadowId(d.nodes[i]), Some(Key(d.nodes[i]))));
  }

  /** Init again on a target whose shadow is already on the page before it:
      the new shadow stays bare, hidden and without a handler, because the
      shadow id finds the old one. */
  lemma ReinitLeavesStrayShadow(d: Doc<BlurHandler, FocusHandler>, o: Options, i: nat, s: nat)
    requires i < |d.nodes| && o.mode == Str("field")
    requires FirstById(d.nodes, ShadowId(d.nodes[i])) == Some(s) && s < i
    ensures var t := d.nodes[i];
            InitOne(d, o, i).nodes[i] == NewHiddenInput(d.next, ShadowId(t), Some(Key(t)))
  {
    if TextHint(o, d.nodes[i]) != "" {
      StrayShadowFired(d, o, i, s);
      FieldInitSteps(d, o, i);
    } else {
      var t := d.nodes[i];
      assert InitOne(d, o, i) == Doc(InsertShadow(d.nodes, d.next, i), d.next + 1);
      assert InsertShadow(d.nodes, d.next, i)[i] == NewHiddenInput(d.next, ShadowId(t), Some(Key(t)));
    }
  }



  /** Init with hint text on a target whose shadow id already finds an
      element before it, such as the bare shadow a set-up without hint text
      left: that old element is the one decorated. It takes the hint as value
      and title and the field-mode focus handler, while the new shadow stays
      bare (ReinitLeavesStrayShadow). */
  lemma ReinitDecoratesOldShadow(d: Doc<BlurHandler, FocusHandler>, o: Options, i: nat, s: nat)
    requires i < |d.nodes| && o.mode == Str("field") && TextHint(o, d.nodes[i]) != ""
    requires FirstById(d.nodes, ShadowId(d.nodes[i])) == Some(s) && s < i
    ensures var r := InitOne(d, o, i).nodes;
            var text := TextHint(o, d.nodes[i]);
            && r[s].uid == d.nodes[s].uid && r[s].value == text && r[s].title == text
            && r[s].focusHandlers == d.nodes[s].focusHandlers + [FieldFocus]
  {
    var t := d.nodes[i];
    var x := ShadowId(t);
    var inserted := InsertShadow(d.nodes, d.next, i);
    assert forall k :: 0 <= k <= s ==> inserted[k] == d.nodes[k];
    FirstByIdAt(inserted, x, s);
    FieldInitSteps(d, o, i);
    assert FieldBound(d, o, i)[s] == Decorate(d.nodes[s], o, t, TextHint(o, t));
  }

  // ---------------------------------------------------------------------
  // setHint and destroyHint

  /** `b` is `a` with at most values and titles changed. */
  ghost predicate TextOnly(a: seq<Element>, b: seq<Element>)
  {
    |a| == |b| && forall k :: 0 <= k < |a| ==> b[k] == a[k].(value := b[k].value, title := b[k].title)
  }

  lemma SetHintOneChangesOnlyText(nodes: seq<Element>, u: Uid, text: Option<string>)
    requires IndexOf(nodes, u).Some?
    ensures TextOnly(nodes, SetHintOne(nodes, u, text))
  {
    if text.Some? {
      var r := SetHintOne(nodes, u, text);
      var key := Key(nodes[IndexOf(nodes, u).value]);
      forall k | 0 <= k < |nodes|
        ensures r[k] == nodes[k].(value := r[k].value, title := r[k].title)
      {
        var n := Relabel(nodes[k], key, text.value);
        assert n == nodes[k].(value := n.value, title := n.title);
      }
    }
  }

  /** `setHint` changes values and titles only: visibility, classes,
      backgrounds and handlers stay as they were. */
  lemma {:induction false} SetHintChangesOnlyText(nodes: seq<Element>, coll: seq<Uid>, text: Option<string>)
    requires InPage(nodes, coll)
    ensures TextOnly(nodes, SetHintEach(nodes, coll, text))
    decreases |coll|
  {
    if coll != [] {
      var next := SetHintOne(nodes, coll[0], text);
      SetHintOneChangesOnlyText(nodes, coll[0], text);
      SameIdentitiesKeeps(nodes, next, 0);
      SetHintChangesOnlyText(next, coll[1..], text);
    }
  }

  /** One element of `setHint`: every shadow of the element's key gets the
      text as value and title, the element gets it as title, and every other
      element is left alone. */
  lemma SetHintRelabels(nodes: seq<Element>, u: Uid, s: string)
    requires IndexOf(nodes, u).Some?
    ensures var k := IndexOf(nodes, u).value;
            var key := Key(nodes[k]);
            var r := SetHintOne(nodes, u, Some(s));
            && r[k].title == s
            && (forall j :: 0 <= j < |nodes| && ShadowOf(nodes[j], key) ==> r[j].value == s && r[j].title == s)
            && (forall j :: 0 <= j < |nodes| && j != k && !ShadowOf(nodes[j], key) ==> r[j] == nodes[j])
  {
  }

  /** `setHint()` without an argument only reads values and titles. */
  lemma {:induction false} SetHintWithoutText(nodes: seq<Element>, coll: seq<Uid>)
    requires InPage(nodes, coll)
    ensures SetHintEach(nodes, coll, None) == nodes
    decreases |coll|
  {
    if coll != [] {
      SetHintWithoutText(nodes, coll[1..]);
    }
  }

  /** An element as `unbind('blur').unbind('focus')` on `u` leaves it. */
  function Unbound(n: Element, u: Uid): (r: Element)
    ensures r.uid == n.uid
    ensures r.uid == u ==> r.blurHandlers == [] && r.focusHandlers == []
  {
    if n.uid == u then n.(blurHandlers := [], focusHandlers := []) else n
  }

  /** One element of `destroyHint` on a page: the first element with the
      shadow id of `key`, if any, is gone; `u` keeps no blur or focus
      handler; every other element stays, unchanged and in order. */
  lemma DestroyOneEffect(d: Doc<BlurHandler, FocusHandler>, key: string, u: Uid)
    requires WellFormed(d)
    ensures var r := DestroyOne(d.nodes, key, u);
      forall k :: 0 <= k < |r| && r[k].uid == u ==> r[k].blurHandlers == [] && r[k].focusHandlers == []
    ensures var r := DestroyOne(d.nodes, key, u);
      FirstById(d.nodes, ShadowPrefix + key).None? ==>
        |r| == |d.nodes| && forall k :: 0 <= k < |r| ==> r[k] == Unbound(d.nodes[k], u)
    ensures var r := DestroyOne(d.nodes, key, u);
      FirstById(d.nodes, ShadowPrefix + key).Some? ==>
        var s := FirstById(d.nodes, ShadowPrefix + key).value;
        && |r| + 1 == |d.nodes|
        && (forall k :: 0 <= k < |r| ==> r[k].uid != d.nodes[s].uid)
        && (forall k :: 0 <= k < s ==> r[k] == Unbound(d.nodes[k], u))
        && (forall k :: s <= k < |r| ==> r[k] == Unbound(d.nodes[k + 1], u))
  {
    var removed := RemoveFirst(d.nodes, ShadowPrefix + key);
    RemoveFirstWellFormed(d, ShadowPrefix + key);
    UnbindEffect(Doc(removed, d.next), u);
  }

  /** On a page with distinct identities, unbinding `u` clears exactly the
      element with that identity. */
  lemma UnbindEffect(d: Doc<BlurHandler, FocusHandler>, u: Uid)
    requires WellFormed(d)
    ensures |Unbind(d.nodes, u)| == |d.nodes|
    ensures forall k :: 0 <= k < |d.nodes| ==> Unbind(d.nodes, u)[k] == Unbound(d.nodes[k], u)
  {
    var r := Unbind(d.nodes, u);
    forall k | 0 <= k < |d.nodes|
      ensures r[k] == Unbound(d.nodes[k], u)
    {
      if d.nodes[k].uid == u {
        IndexOfAt(d, k);
      }
    }
  }

  /** `destroyHint` on an element that has no shadow and no handlers
      changes nothing. */
  lemma DestroyUninitialised(nodes: seq<Element>, key: string, u: Uid)
    requires FirstById(nodes, ShadowPrefix + key).None?
    requires IndexOf(nodes, u).Some? ==>
      nodes[IndexOf(nodes, u).value].blurHandlers == [] && nodes[IndexOf(nodes, u).value].focusHandlers == []
    ensures DestroyOne(nodes, key, u) == nodes
  {
  }
}
