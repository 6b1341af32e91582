# ztInputHint, modelled in Dafny

ztInputHint is a jQuery plugin that shows a hint, such as "Username", in
empty text and password fields. It has three modes:

- **field** (the default): a hidden shadow `<input>` holding the hint text is
  inserted just before the real field. The shadow is shown while the field
  is empty and not focused. Focusing the shadow swaps it for the field.
- **class**: the field's class list moves between a hint class and a
  default class.
- **background**: the field's inline `background-image` moves between a hint
  image and a default image.

Two revisions of the plugin are modelled side by side.

- **Revision 1.5** keeps one module-level options object that every call
  merges into. It links each shadow to its field by id: the shadow's id is
  `ztInputHint_` + (id || name), and its `hintFor` attribute points back. It
  dispatches the method names `init`, `setHint` and `destroyHint`.
- **Revision 1.4** starts every call from fresh defaults. Its dummy input has
  no id. The dummy and its field find each other as neighbours
  (`prev('input:first')` / `next('input:first')`).

## The modules

- `js_values.dfy` (`JsValues`): the JavaScript values the plugin reads.
  - Option values are a string or `false`. Call arguments are absent, a
    string, or an object.
  - Truthiness is modelled, and so is loose comparison with `false`, which
    converts strings to numbers.
- `dom.dfy` (`Dom`): the page. It is a flat sequence of sibling elements in
  document order, held by the class `Page` together with the next fresh
  element identity.
  - The jQuery and DOM lookups the plugin uses are functions over this
    sequence: `#id`, which finds the first match; `input#id`;
    `prev('input:first')`; `next('input:first')`; and attribute reads.
  - A jQuery collection is a sequence of element identities.
- `toggle.dfy` (`Toggle`): the class-mode and background-mode handlers. Both
  revisions share them, as functions on a class set or an image, together
  with their properties over any sequence of focus and blur events.
- `hint15.dfy` (`HintV15`): revision 1.5.
  - The class `Plugin` holds the shared options.
  - Its methods change the page in place: `Init` with its element loop,
    `SetHint`, `DestroyHint`, the dispatcher `Call`, and `Blur` and `Focus`,
    which run an element's bound handlers in order.
  - Each method is proved equal to a function of the old state. The lemmas
    in `hint15_lemmas.dfy` (`HintV15Lemmas`) state what the source promises
    about those functions.
- `hint14.dfy` (`HintV14`) and `hint14_lemmas.dfy` (`HintV14Lemmas`):
  revision 1.4, laid out the same way. There is no shared state. The class
  and background handlers carry the options of the call that bound them.

Loose comparisons follow the code. `x != false` (class mode) is false for
every option whose text spells zero: `false`, `''`, `'0'`, white space,
`'0x0'` and so on. `x != ''` (background mode) and `x || y`
coincide with truthiness on these values.

Four behaviours of the code are easy to misread:

- `init` does not skip an element that is not a text or password input. It
  stops there, because the `each` callback returns `false`.
- `setHint` on a field that was never set up is not a no-op. It still sets
  the field's own title.
- Field mode inserts the hidden shadow (1.5) or dummy (1.4) even when there
  is no hint text, because the insertion comes before the test of the text.
  Nothing else happens in that call, but a later call can bring the bare
  input into view. In 1.5, a later set-up with hint text decorates the bare
  shadow, because the shadow id finds it first, and the target's blur can
  then show it. In 1.4, after a set-up with text, a bare dummy from a later
  call sits between the old dummy and the field, and focusing the old dummy
  shows the bare one.
- A second field-mode `init` does not reuse the shadow. It inserts another
  one, which stays bare in 1.5 and takes over as the dummy in 1.4.

## Model

| member | source | states |
|---|---|---|
| JsValues.LooseFalseAgreesWithTruthiness | tags/V_1_5/jquery.ztinputhint.js:164-180 | an unset option (`false` or `''`) is loosely equal to `false`; a set option whose text does not spell zero is not |
| JsValues.ZerosAreLooselyFalse | tags/V_1_5/jquery.ztinputhint.js:164 | every run of zeros (`'0'`, `'00'`) is truthy yet fails `!= false`, so class mode treats it as unset |
| JsValues.BlankIsLooselyFalse | tags/V_1_5/jquery.ztinputhint.js:167 | every class option of white space alone is truthy yet loosely equal to `false` |
| JsValues.HexZerosAreLooselyFalse | tags/V_1_5/jquery.ztinputhint.js:177 | every hexadecimal zero (`'0x0'`, `'0X00'`) counts as `false` in the class tests |
| JsValues.WordIsNotLooselyFalse | tags/V_1_5/jquery.ztinputhint.js:180 | every text that does not begin like a number (any class name starting with a letter) passes `!= false` |
| Dom.NewHiddenInput | tags/V_1_5/jquery.ztinputhint.js:106 | the parsed shadow markup is a hidden, empty text input with the given id and `hintFor`, and with no handlers |
| Dom.Key | tags/V_1_5/jquery.ztinputhint.js:105 | the key is the id when the element has one, else its name |
| Dom.ShadowId | tags/V_1_5/jquery.ztinputhint.js:105 | the shadow id is the prefix followed by the key, and it never equals the element's own id |
| Dom.Attr | tags/V_1_5/jquery.ztinputhint.js:107 | reading `title` gives the title; another attribute gives its value or `''`; a `false` attribute name reads `''` |
| Dom.FirstById | tags/V_1_5/jquery.ztinputhint.js:113 | `#id` finds the first element in page order with that id, and nothing for the empty id or an id no element has |
| Dom.FindInputById | tags/V_1_5/jquery.ztinputhint.js:132 | `input#id` read through the id lookup: the first element with the id when it is an input, and nothing otherwise |
| Dom.PrevInput | tags/V_1_4/jquery.ztinputhint.js:93 | `prev('input:first')` is the element just before, when that element is an input |
| Dom.NextInput | tags/V_1_4/jquery.ztinputhint.js:108 | `next('input:first')` is the element just after, when that element is an input |
| Dom.IndexOf | tags/V_1_5/jquery.ztinputhint.js:90-91 | the position of a collection member is the first element with its identity, or none when it is not on the page |
| Dom.InsertKeeps | tags/V_1_5/jquery.ztinputhint.js:111 | inserting a new element before the target keeps every element already on the page, with its identity |
| Dom.InsertThenInPlace | tags/V_1_5/jquery.ztinputhint.js:111 | a page that matches, in identity, the page with a fresh element inserted is well formed and keeps every element |
| Toggle.Named | tags/V_1_5/jquery.ztinputhint.js:164 | an option names a class exactly when it is not loosely `false` |
| Toggle.ClassesOnBlur | tags/V_1_5/jquery.ztinputhint.js:158-171 | on an empty field the hint class is present afterwards, and the default class is absent when the two differ; a field with text keeps its classes; only the two option classes can come or go |
| Toggle.ClassesOnFocus | tags/V_1_5/jquery.ztinputhint.js:174-182 | the default class is present afterwards and the hint class is absent when the two differ; only the two option classes can come or go |
| Toggle.BackgroundOnBlur | tags/V_1_5/jquery.ztinputhint.js:200-205 | an empty field gets `url(hintBG)` when `hintBG` is set; otherwise the image stays |
| Toggle.BackgroundOnFocus | tags/V_1_5/jquery.ztinputhint.js:208-218 | the image becomes `url(defaultBG)` when `defaultBG` is set, and is cleared otherwise |
| Toggle.ClassHandlersTouchOnlyOptions | tags/V_1_5/jquery.ztinputhint.js:158-182 | neither class handler adds or removes a class other than the two options, in both directions |
| Toggle.ClassHandlersAsSetAlgebra | tags/V_1_5/jquery.ztinputhint.js:158-182 | blur on an empty field is "classes minus default plus hint"; focus is "classes minus hint plus default" |
| Toggle.LooselyFalseClassIgnored | tags/V_1_5/jquery.ztinputhint.js:158-182 | a `hintClass` or `defaultClass` loosely equal to `false` makes both class handlers give exactly what they give with that option switched off |
| Toggle.ClassHandlersIdempotent | tags/V_1_5/jquery.ztinputhint.js:158-182 | firing either class handler twice gives the same classes as firing it once |
| Toggle.NeverBothClasses | tags/V_1_5/jquery.ztinputhint.js:158-185 | after any sequence of focus and blur events, a field that did not start with both classes never holds both |
| Toggle.BackgroundFollowsLastEvent | tags/V_1_5/jquery.ztinputhint.js:200-221 | after any events, the image is decided by the last one: after a focus it is the default image or none; after a blur of an empty field with `hintBG` set it is the hint image |
| Toggle.BackgroundHandlersIdempotent | tags/V_1_5/jquery.ztinputhint.js:200-205 | a blur of a field with text keeps the image, and a repeated blur changes nothing more |
| HintV15.Merge | tags/V_1_5/jquery.ztinputhint.js:80-88 | after `init`, every option is what the object argument gives, or the non-empty string for `hint`, or otherwise the value earlier calls left |
| HintV15.Route | tags/V_1_5/jquery.ztinputhint.js:259-270 | `destroyHint` and `setHint` are selected exactly by their names; a name every engine's `Object.prototype` has finds a built-in; `init` passes on the second argument; every other first argument goes to `init` |
| HintV15.NativeReturn | tags/V_1_5/jquery.ztinputhint.js:262-263 | a built-in found under an inherited name returns the collection exactly when it is `valueOf`; every other built-in returns something else |
| HintV15.FieldOnFocus | tags/V_1_5/jquery.ztinputhint.js:128-135 | the shadow's focus handler changes nothing but visibility, classes and backgrounds; its exact effect on a linked pair is `HintV15Lemmas.FieldFocusShowsTarget` |
| HintV15.FieldOnBlur | tags/V_1_5/jquery.ztinputhint.js:138-143 | the target's blur handler changes nothing but visibility, classes and backgrounds; its exact effect on a linked pair is `HintV15Lemmas.FieldBlurShowsShadow` |
| HintV15.OnBlur | tags/V_1_5/jquery.ztinputhint.js:138-205 | every blur handler of every mode, run under the current options, changes only visibility, classes and background images |
| HintV15.OnFocus | tags/V_1_5/jquery.ztinputhint.js:128-218 | every focus handler of every mode, run under the current options, changes only visibility, classes and background images |
| HintV15.RunBlur | tags/V_1_5/jquery.ztinputhint.js:147 | running an element's bound blur handlers in the order they were bound, under the current options, changes only visibility, classes and background images |
| HintV15.RunFocus | tags/V_1_5/jquery.ztinputhint.js:128-135 | running an element's bound focus handlers in the order they were bound, under the current options, changes only visibility, classes and background images |
| HintV15.FireBlur | tags/V_1_5/jquery.ztinputhint.js:147 | `container.blur()` runs the bound handlers, which leave every element's identity, value and handlers alone |
| HintV15.Decorate | tags/V_1_5/jquery.ztinputhint.js:116-125 | decorating the shadow keeps its identity: uid, tag, type, id, name and `hintFor` |
| HintV15.InsertShadow | tags/V_1_5/jquery.ztinputhint.js:111 | the page grows by one element, and the target moves one place to the right |
| HintV15.DecorateFirst | tags/V_1_5/jquery.ztinputhint.js:113-125 | decorating what the shadow id finds keeps every element's identity |
| HintV15.BindBlur | tags/V_1_5/jquery.ztinputhint.js:138 | binding a handler keeps every element's identity |
| HintV15.FieldInitInPlace | tags/V_1_5/jquery.ztinputhint.js:106-147 | after field mode, the page matches, element by element in identity, the page with the shadow inserted before the target; exactly one fresh identity is used |
| HintV15.FieldInitKeeps | tags/V_1_5/jquery.ztinputhint.js:101-148 | field mode keeps the page well formed and every element on it with its identity |
| HintV15.InitOneKeeps | tags/V_1_5/jquery.ztinputhint.js:101-222 | each mode's set-up keeps the page well formed and every element on it |
| HintV15.InitAll | tags/V_1_5/jquery.ztinputhint.js:90-95 | `init`'s loop keeps the page well formed and every element on it |
| HintV15.Relabel | tags/V_1_5/jquery.ztinputhint.js:246-248 | relabelling keeps the element's identity |
| HintV15.SetHintOne | tags/V_1_5/jquery.ztinputhint.js:245-250 | one `setHint` step keeps every element's identity |
| HintV15.SetHintEach | tags/V_1_5/jquery.ztinputhint.js:244-251 | `setHint` keeps every element's identity |
| HintV15.RemoveFirst | tags/V_1_5/jquery.ztinputhint.js:233 | `remove()` drops the first element with the id and keeps every other element in order; with no such element the page is unchanged |
| HintV15.Unbind | tags/V_1_5/jquery.ztinputhint.js:234 | the element found for `u` has no blur or focus handler afterwards and is otherwise unchanged; every element with another identity is unchanged |
| HintV15.RemoveFirstWellFormed | tags/V_1_5/jquery.ztinputhint.js:233 | removing the shadow keeps the page well formed |
| HintV15.Plugin.constructor | tags/V_1_5/jquery.ztinputhint.js:62-73 | the shared options start as the defaults: field mode, `title` as source attribute, colour `#BBBBBB`, every other option `false` or `null` |
| HintV15.Plugin.TriggerBlur | tags/V_1_5/jquery.ztinputhint.js:147 | running the blur handlers one by one ends in the state the handler sequence specifies |
| HintV15.Plugin.TriggerFocus | tags/V_1_5/jquery.ztinputhint.js:128-135 | running the focus handlers one by one ends in the state the handler sequence specifies |
| HintV15.Plugin.Blur | tags/V_1_5/jquery.ztinputhint.js:138-143 | a blur event runs the element's blur handlers under the current options and keeps the page valid |
| HintV15.Plugin.Focus | tags/V_1_5/jquery.ztinputhint.js:128-135 | a focus event runs the element's focus handlers under the current options and keeps the page valid |
| HintV15.Plugin.InitField | tags/V_1_5/jquery.ztinputhint.js:101-148 | the in-place field-mode set-up ends in the field-mode state for the target |
| HintV15.Plugin.InitToggle | tags/V_1_5/jquery.ztinputhint.js:155-222 | the in-place class or background set-up ends in the state that binding the pair and firing the blur specifies |
| HintV15.Plugin.Init | tags/V_1_5/jquery.ztinputhint.js:78-224 | the shared options become the merge of the old options and the argument; the page is set up element by element; the collection is returned |
| HintV15.Plugin.InitElement | tags/V_1_5/jquery.ztinputhint.js:101-222 | one element is set up by the mode in force; an unknown mode changes nothing |
| HintV15.Plugin.InitEach | tags/V_1_5/jquery.ztinputhint.js:90-95 | the loop ends in the state of the element-by-element set-up, which stops at the first non-text input |
| HintV15.Plugin.SetHintElement | tags/V_1_5/jquery.ztinputhint.js:245-250 | the loop over the page relabels every shadow of the key, then the element's title is set |
| HintV15.Plugin.SetHintStep | tags/V_1_5/jquery.ztinputhint.js:245-250 | one pass of `each` in place is the `setHint` step for that element, keeps the page valid and keeps every element on it |
| HintV15.Plugin.SetHint | tags/V_1_5/jquery.ztinputhint.js:242-253 | in field mode each element is relabelled in turn; in any other mode the page is unchanged; the collection is returned |
| HintV15.Plugin.DestroyElement | tags/V_1_5/jquery.ztinputhint.js:232-235 | one pass of `each` in place removes what the shadow id finds and unbinds the element, keeping the page valid |
| HintV15.Plugin.DestroyHint | tags/V_1_5/jquery.ztinputhint.js:229-236 | each element's shadow is removed and its handlers unbound; the collection is returned |
| HintV15.Plugin.Call | tags/V_1_5/jquery.ztinputhint.js:259-270 | the routed request runs: `init` merges and sets up; `setHint` and `destroyHint` leave the options alone; an inherited name changes nothing, and returns the collection for `valueOf` and another value for every other built-in |
| HintV15Lemmas.ArgumentsSetOnlyWhatTheyName | tags/V_1_5/jquery.ztinputhint.js:80-88 | a string argument changes only `hint`; an object changes only the options it names; no argument changes nothing |
| HintV15Lemmas.SettingsPersist | tags/V_1_5/jquery.ztinputhint.js:62-88 | an option set by one `init` is still in force after a later call that does not name it |
| HintV15Lemmas.DestroyIsHintText | tags/V_1_5/jquery.ztinputhint.js:259-270 | `ztInputHint('destroy')` goes to `init`, and "destroy" becomes the hint |
| HintV15Lemmas.InitStopsAtFirstNonText | tags/V_1_5/jquery.ztinputhint.js:90-95 | the elements after the first non-text input are never set up |
| HintV15Lemmas.LinkedRestyled | tags/V_1_5/jquery.ztinputhint.js:128-143 | the handlers never break the id link between a shadow and its target |
| HintV15Lemmas.FieldFocusShowsTarget | tags/V_1_5/jquery.ztinputhint.js:128-135 | focusing a linked shadow hides it and shows its target, and nothing else changes |
| HintV15Lemmas.FieldBlurShowsShadow | tags/V_1_5/jquery.ztinputhint.js:138-143 | blurring an empty linked target shows its shadow and hides it; blurring a target with text changes nothing |
| HintV15Lemmas.FieldBlurIdempotent | tags/V_1_5/jquery.ztinputhint.js:138-143 | a second blur of the target changes nothing more |
| HintV15Lemmas.FieldFocusIdempotent | tags/V_1_5/jquery.ztinputhint.js:128-135 | a second focus of the shadow changes nothing more |
| HintV15Lemmas.PairStepEffect | tags/V_1_5/jquery.ztinputhint.js:128-143 | one move on an empty linked pair keeps it linked and empty, and leaves exactly the element the move calls for visible |
| HintV15Lemmas.ShadowAndTargetAlternate | tags/V_1_5/jquery.ztinputhint.js:128-143 | after any moves on an empty target, exactly one of shadow and target is visible: the target after entering the shadow, the shadow after leaving the target |
| HintV15Lemmas.BlurLeavesOthers | tags/V_1_5/jquery.ztinputhint.js:138-143 | blur handlers leave alone every element except the target and what its shadow id finds |
| HintV15Lemmas.FieldInitWithoutText | tags/V_1_5/jquery.ztinputhint.js:105-116 | without hint text, field mode still inserts the hidden, empty shadow with its id and `hintFor` before the target, and changes nothing else |
| HintV15Lemmas.FreshFieldInit | tags/V_1_5/jquery.ztinputhint.js:101-148 | set-up of a field with no shadow yet and no blur handler bound: the decorated shadow is just before it (class, size, tab index, title and value from the hint; the colour when no hint class is set); the shadow is visible and the target hidden exactly when the target is empty; every other element is unchanged |
| HintV15Lemmas.FreshInitThenDestroy | tags/V_1_5/jquery.ztinputhint.js:229-236 | `destroyHint` right after a fresh set-up gives back the original page, except that an empty target stays hidden |
| HintV15Lemmas.NameOnlyTargetStaysHidden | tags/V_1_5/jquery.ztinputhint.js:128-135 | for an empty field known only by its name, focusing the shadow hides it and leaves the field hidden too, because the lookup goes by id |
| HintV15Lemmas.FreshInitLinks | tags/V_1_5/jquery.ztinputhint.js:105-113 | after a fresh set-up of a field with an id, the shadow and the field find each other |
| HintV15Lemmas.ReinitLeavesStrayShadow | tags/V_1_5/jquery.ztinputhint.js:111-125 | a second set-up of the same field inserts a new shadow that stays bare, because the shadow id finds the old one first |
| HintV15Lemmas.ReinitDecoratesOldShadow | tags/V_1_5/jquery.ztinputhint.js:111-125 | set-up with hint text of a field whose shadow id already finds an earlier element (such as a bare shadow): that element takes the hint as value and title and the focus handler |
| HintV15Lemmas.SetHintChangesOnlyText | tags/V_1_5/jquery.ztinputhint.js:242-253 | `setHint` changes only values and titles; visibility, classes, images and handlers stay |
| HintV15Lemmas.SetHintRelabels | tags/V_1_5/jquery.ztinputhint.js:246-249 | every shadow whose `hintFor` is the element's key gets the text as value and title, the element gets it as title, and nothing else changes |
| HintV15Lemmas.SetHintWithoutText | tags/V_1_5/jquery.ztinputhint.js:247-249 | `setHint()` with no argument only reads, so the page is unchanged |
| HintV15Lemmas.UnbindEffect | tags/V_1_5/jquery.ztinputhint.js:234 | on a page with distinct identities, unbinding clears the handlers of exactly the element `u` |
| HintV15Lemmas.DestroyOneEffect | tags/V_1_5/jquery.ztinputhint.js:232-234 | one element of `destroyHint`, on any page: the first element with the shadow id is gone, `u` keeps no blur or focus handler, and every other element stays, unchanged apart from `u`'s handlers and in order |
| HintV15Lemmas.DestroyUninitialised | tags/V_1_5/jquery.ztinputhint.js:232-235 | `destroyHint` on an element with no shadow and no handlers changes nothing |
| HintV14.CallOptions | tags/V_1_4/jquery.ztinputhint.js:51-71 | each call's options are the defaults with the object merged in or a non-empty string as the hint; nothing from earlier calls takes part |
| HintV14.FieldOnFocus | tags/V_1_4/jquery.ztinputhint.js:105-111 | the dummy's focus handler changes only visibility, classes and backgrounds; its exact effect is `HintV14Lemmas.FieldFocusShowsNext` |
| HintV14.FieldOnBlur | tags/V_1_4/jquery.ztinputhint.js:114-119 | the target's blur handler changes only visibility, classes and backgrounds; its exact effect is `HintV14Lemmas.FieldBlurShowsPrev` |
| HintV14.OnBlur | tags/V_1_4/jquery.ztinputhint.js:114-181 | every blur handler, with the options it captured, changes only visibility, classes and background images |
| HintV14.OnFocus | tags/V_1_4/jquery.ztinputhint.js:105-194 | every focus handler, with the options it captured, changes only visibility, classes and background images |
| HintV14.RunBlur | tags/V_1_4/jquery.ztinputhint.js:123 | running an element's bound blur handlers in the order they were bound, each with its captured options, changes only visibility, classes and background images |
| HintV14.RunFocus | tags/V_1_4/jquery.ztinputhint.js:105-111 | running an element's bound focus handlers in the order they were bound, each with its captured options, changes only visibility, classes and background images |
| HintV14.FireBlur | tags/V_1_4/jquery.ztinputhint.js:123 | `container.blur()` leaves every element's identity, value and handlers alone |
| HintV14.Decorate | tags/V_1_4/jquery.ztinputhint.js:96-102 | decorating the dummy keeps its identity |
| HintV14.InsertDummy | tags/V_1_4/jquery.ztinputhint.js:92 | the page grows by one element, and the target moves one place to the right |
| HintV14.DecoratePrev | tags/V_1_4/jquery.ztinputhint.js:93-102 | decorating the input before the target keeps every element's identity |
| HintV14.BindBlur | tags/V_1_4/jquery.ztinputhint.js:114 | binding a handler keeps every element's identity |
| HintV14.FieldInitInPlace | tags/V_1_4/jquery.ztinputhint.js:87-123 | after field mode, the page matches, element by element in identity, the page with the dummy inserted before the target; exactly one fresh identity is used |
| HintV14.FieldInitKeeps | tags/V_1_4/jquery.ztinputhint.js:84-125 | field mode keeps the page well formed and every element on it with its identity |
| HintV14.InitOneKeeps | tags/V_1_4/jquery.ztinputhint.js:84-198 | each mode's set-up keeps the page well formed and every element on it |
| HintV14.InitAll | tags/V_1_4/jquery.ztinputhint.js:73-78 | the call's loop keeps the page well formed and every element on it |
| HintV14.TriggerBlur | tags/V_1_4/jquery.ztinputhint.js:123 | running the blur handlers one by one ends in the state the handler sequence specifies |
| HintV14.TriggerFocus | tags/V_1_4/jquery.ztinputhint.js:105-111 | running the focus handlers one by one ends in the state the handler sequence specifies |
| HintV14.Blur | tags/V_1_4/jquery.ztinputhint.js:114-119 | a blur event runs the element's blur handlers and keeps the page valid |
| HintV14.Focus | tags/V_1_4/jquery.ztinputhint.js:105-111 | a focus event runs the element's focus handlers and keeps the page valid |
| HintV14.InitField | tags/V_1_4/jquery.ztinputhint.js:84-125 | the in-place field-mode set-up ends in the field-mode state for the target |
| HintV14.InitToggle | tags/V_1_4/jquery.ztinputhint.js:131-198 | the in-place class or background set-up ends in the state that binding the pair and firing the blur specifies |
| HintV14.InitElement | tags/V_1_4/jquery.ztinputhint.js:84-198 | one element is set up by the call's mode; an unknown mode changes nothing |
| HintV14.Call | tags/V_1_4/jquery.ztinputhint.js:50-200 | the page is set up with this call's options alone, and the collection is returned |
| HintV14.InitEach | tags/V_1_4/jquery.ztinputhint.js:73-78 | the loop ends in the state of the element-by-element set-up, which stops at the first non-text input |
| HintV14Lemmas.EveryCallStartsFromDefaults | tags/V_1_4/jquery.ztinputhint.js:51-71 | an option the argument does not supply has its default value, whatever earlier calls did |
| HintV14Lemmas.InitStopsAtFirstNonText | tags/V_1_4/jquery.ztinputhint.js:73-78 | the elements after the first non-text input are never set up |
| HintV14Lemmas.FieldInitInsertsDummy | tags/V_1_4/jquery.ztinputhint.js:87-96 | field mode always puts a hidden input with no id and no `hintFor` just before the target; without hint text nothing else happens |
| HintV14Lemmas.FieldInitWithText | tags/V_1_4/jquery.ztinputhint.js:96-123 | with hint text, on a target with no blur handlers: the dummy gets class, size, tab index and value (no title, no colour); it is visible and the target hidden exactly when the target is empty; every other element is unchanged |
| HintV14Lemmas.FieldFocusShowsNext | tags/V_1_4/jquery.ztinputhint.js:105-111 | focusing the dummy hides it and shows the input after it, and nothing else changes |
| HintV14Lemmas.FieldBlurShowsPrev | tags/V_1_4/jquery.ztinputhint.js:114-119 | blurring an empty target shows the input before it and hides it; blurring a target with text changes nothing |
| HintV14Lemmas.FieldHandlersIdempotent | tags/V_1_4/jquery.ztinputhint.js:105-119 | a second focus of the dummy, or a second blur of the target, changes nothing more |
| HintV14Lemmas.StepEffect | tags/V_1_4/jquery.ztinputhint.js:105-119 | one move on a dummy and its empty target leaves exactly the element the move calls for visible |
| HintV14Lemmas.DummyAndTargetAlternate | tags/V_1_4/jquery.ztinputhint.js:105-119 | after any moves on an empty target, exactly one of dummy and target is visible, decided by the last move |
| HintV14Lemmas.ReinitRedirectsOldDummy | tags/V_1_4/jquery.ztinputhint.js:92-111 | after a second set-up, focusing the old dummy shows the new dummy and leaves the target as it was |
| HintV14Lemmas.ClassHandlersKeepTheirOptions | tags/V_1_4/jquery.ztinputhint.js:131-161 | a field set up twice in class mode runs both calls' handlers, each with its own options: the later hint class is present after the blur, and so is the earlier one unless the later call names it as its default class |

## Left out

- Rendering, selector evaluation in general, and the browser's native focus
  handling are not modelled. Events are explicit `Blur` and `Focus` calls on
  the page. Only the lookups the plugin uses are modelled.
- The `cont.focus()` after showing the target (revision 1.5 line 134,
  revision 1.4 line 110) is not modelled. It moves the input focus and runs
  the target's own focus handlers. The model does not track which element
  has the focus.
- The `alert('destroy')` in `destroyHint` (revision 1.5 line 230) is a
  blocking dialog with no effect on the page.
- The fixed background CSS (position, repeat, colour, attachment) set when
  background mode starts is not modelled. The computed-style read of
  `background-image` in the focus handler is taken to be the stored inline
  value.
- The `||` fallback to a name selector in the focus handler (revision 1.5
  line 132) is never taken, because a jQuery object is always truthy. The
  lookup is by id only.
- The unused `dummyName` of revision 1.4 is not modelled. Neither is the
  second plugin name `ztInputHint`, an alias of `ztinputhint`.
- Keys are pasted into selectors. Selector metacharacters in an id or name,
  and a missing key (which makes `input#` throw), are not modelled. The
  model looks the key up as plain text.
- Dom.Attr: `attr(false)`, a `sourceAttrib` switched off, reads `''` here.
  jQuery returns the collection itself, which is truthy. Reading the `class`
  attribute through `sourceAttrib` is not modelled either.
- JsValues.Arg: a number, `true` or a function passed to `init` becomes the
  hint in the source (revision 1.5 lines 86-87, revision 1.4 lines 69-70),
  and its text then fills the shadow's value and title. Call arguments here
  are only absent, a string or an object, so such calls are not modelled.
- HintV15.HintText: `setHint(null)` and `setHint(false)` are treated like
  `setHint()`, and a number argument is not modelled.
- A class name that holds spaces (several classes at once) is treated as one
  class.
- Every operation requires the collection's elements to be on the page.
  Detached elements are not modelled.
- The page is flat. Nesting of elements, and the siblings that
  `prev`/`next` see inside a parent, are not modelled.
- The JavaScript white-space set used when converting a string to a number
  is the common subset; other Unicode space separators are not modelled.
- HintV15.Route: names that only some engines put on `Object.prototype`
  (`__proto__`, `__defineGetter__`, `__lookupGetter__` and the like) go to
  `init` as hint text. In an engine that has them, `__proto__` makes the
  call throw, and the others run a built-in instead.
- Dom.FindInputById: `$('input#' + key)` is read as the id lookup, which
  finds the first element with the id. Engines with `querySelectorAll` go
  through the selector engine instead. It returns every input with that
  id, so the focus handler would show all of them, and it finds a later
  input when the first element with the id is not one. Repeated set-ups
  can create such duplicate ids. The model shows one element at most.
- HintV15Lemmas.FreshFieldInit: proved only for a target with no blur
  handler bound yet. With earlier class- or background-mode handlers the
  source reaches the same visibility, but the outcome also carries their
  class and image changes. That case is not stated.
- HintV14Lemmas.FieldInitWithText: proved only for a target with no blur
  handler bound yet. It does not cover a re-init, whose first field-mode
  handler also shows the new dummy, or earlier class- or background-mode
  handlers. The visibility the source reaches there is not stated.
- JsValues.NumericZero: a decimal literal so small that ToNumber rounds it
  to zero, such as `'1e-400'`, is loosely equal to `false` in JavaScript.
  So are the binary and octal zeros `'0b0'` and `'0o0'` in engines that
  follow ECMAScript 2015 (earlier engines read them as NaN). The model counts
  only decimal and hexadecimal texts that spell zero, so class mode adds
  such a class where the plugin would skip it. Rounding decimal text to a
  double is floating point, which is not modelled.
