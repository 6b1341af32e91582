/** The class-mode and background-mode handlers. Both revisions run the same
    code here, with the options read at event time (the later revision) or
    captured when the handler was bound (the earlier one). */
module Toggle {
  import opened JsValues

  /** The class an option names, if `option != false`. */
  function Named(option: OptVal): (r: set<string>)
    ensures r == {} || (option.Str? && r == {option.s})
    ensures r == {} <==> !NotLooselyFalse(option)
  {
    if NotLooselyFalse(option) then {option.s} else {}
  }

  /** Class-mode blur handler: on an empty field, remove `defaultClass` if the
      field has it, then add `hintClass` if it lacks it; an option loosely
      equal to `false` is skipped. A field with text is left alone. */
  function ClassesOnBlur(classes: set<string>, value: string, hintClass: OptVal, defaultClass: OptVal): (r: set<string>)
    ensures value != "" ==> r == classes
    ensures value == "" ==> Named(hintClass) <= r
    ensures value == "" && hintClass != defaultClass ==> r !! Named(defaultClass)
    ensures r - classes <= Named(hintClass) && classes - r <= Named(defaultClass)
  {
    if value == "" then
      var kept := if NotLooselyFalse(defaultClass) && defaultClass.s in classes
                  then classes - {defaultClass.s} else classes;
      if NotLooselyFalse(hintClass) && hintClass.s !in kept then kept + {hintClass.s} else kept
    else classes
  }

  /** Class-mode focus handler: remove `hintClass` if present, then add
      `defaultClass` if absent, skipping options loosely equal to `false`. */
  function ClassesOnFocus(classes: set<string>, hintClass: OptVal, defaultClass: OptVal): (r: set<string>)
    ensures Named(defaultClass) <= r
    ensures hintClass != defaultClass ==> r !! Named(hintClass)
    ensures r - classes <= Named(defaultClass) && classes - r <= Named(hintClass)
  {
    var kept := if NotLooselyFalse(hintClass) && hintClass.s in classes
                then classes - {hintClass.s} else classes;
    if NotLooselyFalse(defaultClass) && defaultClass.s !in kept then kept + {defaultClass.s} else kept
  }

  /** The inline `background-image` value for an image path. */
  function Url(path: string): string
  {
    "url(" + path + ")"
  }

  /** Background-mode blur handler: on an empty field with `hintBG != ''`,
      show the hint image; otherwise keep the current image. */
  function BackgroundOnBlur(image: string, value: string, hintBG: OptVal): (r: string)
    ensures value == "" && Truthy(hintBG) ==> r == Url(hintBG.s)
    ensures !(value == "" && Truthy(hintBG)) ==> r == image
  {
    if value == "" && Truthy(hintBG) then Url(hintBG.s) else image
  }

  /** Background-mode focus handler: clear the image, then, when
      `defaultBG != ''` and the (now cleared) image is not already it, show
      the default image. */
  function BackgroundOnFocus(defaultBG: OptVal): (r: string)
    ensures Truthy(defaultBG) ==> r == Url(defaultBG.s)
    ensures !Truthy(defaultBG) ==> r == ""
  {
    var cleared := "";
    if Truthy(defaultBG) && cleared != Url(defaultBG.s) then Url(defaultBG.s) else cleared
  }

  /** A focus or blur of one field; a blur sees the value the field then has. */
  datatype Event = Focus | Blur(value: string)

  /** The class set after a sequence of events. */
  function ClassesAfter(classes: set<string>, events: seq<Event>, hintClass: OptVal, defaultClass: OptVal): set<string>
    decreases |events|
  {
    if events == [] then classes
    else
      var next := match events[0]
        case Focus => ClassesOnFocus(classes, hintClass, defaultClass)
        case Blur(v) => ClassesOnBlur(classes, v, hintClass, defaultClass);
      ClassesAfter(next, events[1..], hintClass, defaultClass)
  }

  /** The background image after a sequence of events. */
  function BackgroundAfter(image: string, events: seq<Event>, hintBG: OptVal, defaultBG: OptVal): string
    decreases |events|
  {
    if events == [] then image
    else
      var next := match events[0]
        case Focus => BackgroundOnFocus(defaultBG)
        case Blur(v) => BackgroundOnBlur(image, v, hintBG);
      BackgroundAfter(next, events[1..], hintBG, defaultBG)
  }

  /** Neither handler touches a class other than the two options, whatever
      the field's value. */
  lemma ClassHandlersTouchOnlyOptions(classes: set<string>, value: string, hintClass: OptVal, defaultClass: OptVal, c: string)
    requires c !in Named(hintClass) + Named(defaultClass)
    ensures c in ClassesOnBlur(classes, value, hintClass, defaultClass) <==> c in classes
    ensures c in ClassesOnFocus(classes, hintClass, defaultClass) <==> c in classes
  {
  }

  /** The class-mode handlers as set algebra: blur on an empty field is
      "minus default, plus hint", focus is "minus hint, plus default". */
  lemma ClassHandlersAsSetAlgebra(classes: set<string>, value: string, hintClass: OptVal, defaultClass: OptVal)
    ensures ClassesOnBlur(classes, value, hintClass, defaultClass)
         == if value == "" then classes - Named(defaultClass) + Named(hintClass) else classes
    ensures ClassesOnFocus(classes, hintClass, defaultClass)
         == classes - Named(hintClass) + Named(defaultClass)
  {
  }

  /** An option loosely equal to `false` (`false`, `''`, `'0'`, white space,
      `'0x0'` and every other decimal or hexadecimal text that spells zero) makes both class-mode
      handlers behave exactly as if that option were switched off. */
  lemma LooselyFalseClassIgnored(classes: set<string>, value: string, hintClass: OptVal, defaultClass: OptVal)
    ensures !NotLooselyFalse(hintClass) ==>
      && ClassesOnBlur(classes, value, hintClass, defaultClass) == ClassesOnBlur(classes, value, Off, defaultClass)
      && ClassesOnFocus(classes, hintClass, defaultClass) == ClassesOnFocus(classes, Off, defaultClass)
    ensures !NotLooselyFalse(defaultClass) ==>
      && ClassesOnBlur(classes, value, hintClass, defaultClass) == ClassesOnBlur(classes, value, hintClass, Off)
      && ClassesOnFocus(classes, hintClass, defaultClass) == ClassesOnFocus(classes, hintClass, Off)
  {
  }

  /** Firing either class-mode handler twice in a row is the same as once. */
  lemma ClassHandlersIdempotent(classes: set<string>, value: string, hintClass: OptVal, defaultClass: OptVal)
    ensures var once := ClassesOnBlur(classes, value, hintClass, defaultClass);
            ClassesOnBlur(once, value, hintClass, defaultClass) == once
    ensures var once := ClassesOnFocus(classes, hintClass, defaultClass);
            ClassesOnFocus(once, hintClass, defaultClass) == once
  {
    ClassHandlersAsSetAlgebra(classes, value, hintClass, defaultClass);
    ClassHandlersAsSetAlgebra(ClassesOnBlur(classes, value, hintClass, defaultClass), value, hintClass, defaultClass);
    ClassHandlersAsSetAlgebra(ClassesOnFocus(classes, hintClass, defaultClass), value, hintClass, defaultClass);
  }

  /** The field never carries both classes at once, provided the two options
      differ and it did not carry both to begin with: a blur with text keeps
      the set, and every other event leaves at most one of them. */
  lemma {:induction false} NeverBothClasses(classes: set<string>, events: seq<Event>, hintClass: OptVal, defaultClass: OptVal)
    requires hintClass != defaultClass
    requires !(Named(hintClass) + Named(defaultClass) <= classes) || Named(hintClass) == {} || Named(defaultClass) == {}
    ensures var r := ClassesAfter(classes, events, hintClass, defaultClass);
            !(Named(hintClass) + Named(defaultClass) <= r) || Named(hintClass) == {} || Named(defaultClass) == {}
    decreases |events|
  {
    if events != [] {
      var next := match events[0]
        case Focus => ClassesOnFocus(classes, hintClass, defaultClass)
        case Blur(v) => ClassesOnBlur(classes, v, hintClass, defaultClass);
      NeverBothClasses(next, events[1..], hintClass, defaultClass);
    }
  }

  /** After any events ending in a focus, the image is the default image when
      `defaultBG` is set and none otherwise; after a blur of an empty field
      with `hintBG` set, it is the hint image. */
  lemma {:induction false} BackgroundFollowsLastEvent(image: string, events: seq<Event>, hintBG: OptVal, defaultBG: OptVal)
    requires events != []
    ensures var r := BackgroundAfter(image, events, hintBG, defaultBG);
            var last := events[|events| - 1];
            && (last == Focus ==> r == (if Truthy(defaultBG) then Url(defaultBG.s) else ""))
            && (last == Blur("") && Truthy(hintBG) ==> r == Url(hintBG.s))
    decreases |events|
  {
    var next := match events[0]
      case Focus => BackgroundOnFocus(defaultBG)
      case Blur(v) => BackgroundOnBlur(image, v, hintBG);
    if |events| > 1 {
      BackgroundFollowsLastEvent(next, events[1..], hintBG, defaultBG);
      assert events[1..][|events[1..]| - 1] == events[|events| - 1];
    }
  }

  /** A blur of a field with text leaves the background image as it was, and
      a blur fired twice is the same as once. (The focus handler does not
      read the current image, so repeating it trivially changes nothing.) */
  lemma BackgroundHandlersIdempotent(image: string, value: string, hintBG: OptVal, defaultBG: OptVal)
    ensures value != "" ==> BackgroundOnBlur(image, value, hintBG) == image
    ensures var once := BackgroundOnBlur(image, value, hintBG);
            BackgroundOnBlur(once, value, hintBG) == once
  {
  }
}
