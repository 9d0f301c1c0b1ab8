# jQuery Selectbox, modelled in Dafny

The plugin `$('select').selectbox(options)` mirrors an HTML `<select>` with a
stylable construct: a root `div`, a display `div` whose inner element shows the
current option's text, and a `ul` option container holding one `li` per source
option. The `<select>` stays in place, hidden, and keeps the live `selected`
attribute for form submission.

The model keeps that machine and drops the DOM around it:

- `settings.dfy` (module `Settings`): the five settings keys with their
  defaults, and the key-by-key override by the caller's options object.
- `selectbox.dfy` (module `Selectbox`):
  - the source options (`OptionElem`: text, value, `selected` flag) and the
    mirror items (`MirrorItem`: text, value);
  - pure transitions on a `WidgetState` value (`Opened`, `Closed`, `Toggled`,
    `Selected`, `Initialized`) and the lemmas about them: exactly one option
    selected, display text equal to the selected option's text, selection by
    position, close idempotent, visibility handlers never touching the
    selection;
  - the class `Selectbox`, which performs the handlers in place on the
    source's option array, the display text and the container flag. Each
    method is proved to produce exactly the transition of the pure part;
  - `Attach`, the plugin applied to one `<select>`.
- `wrappers.dfy`: an `Option` type for absent keys and empty selections.

Visibility is an explicit flag. An item counts as visible (`:visible` in
`initSelect`'s display handler) exactly when the container is shown and there
is at least one item. Right after `getHTML` the container has not been hidden
yet, so the constructor leaves it shown. The `doSelection` inside `initSelect`
closes it. With zero options, `initSelect` runs `doSelection` on an empty
jQuery set. That writes the empty text to the display and closes the
container, and no flag changes; `Initialized` models exactly that.

## Model

| member | source | states |
|---|---|---|
| `Settings.Extend` | jquery.selectbox.js:60-62 | every key the caller gives takes the caller's value; every other key keeps the base value |
| `Settings.Resolve` | jquery.selectbox.js:51-62 | per key: the caller's value when the options object carries the key, otherwise the default (`jSelectbox`, `selected`, `jOption`, `optionContainer`, animation on), also when no options object is passed |
| `Settings.EmptyOptionsGiveDefaults` | jquery.selectbox.js:60-62 | an options object without any known key yields the same settings as no options object |
| `Selectbox.BuildItems` | jquery.selectbox.js:96-106 | the build loop yields exactly one item per source option; item k carries option k's text and value, in order; zero options give no items |
| `Selectbox.Selectbox.constructor` | jquery.selectbox.js:84-109 | after `getHTML` the items mirror the options, the display text is empty and the container is not hidden |
| `Selectbox.FirstSelected` | jquery.selectbox.js:136 | the result, if any, is a marked option with no marked option before it; no result means no option is marked |
| `Selectbox.StartOption` | jquery.selectbox.js:136-138 | no start option exactly when there are no options; the marked option (first if several) when one is marked; option 0 when none is |
| `Selectbox.CountZero` | jquery.selectbox.js:187-188 | no option is selected exactly when the selected count is zero |
| `Selectbox.ExactlyOne` | jquery.selectbox.js:187-188 | with option i selected, exactly one option is selected if and only if i is the only selected option |
| `Selectbox.Opened` | jquery.selectbox.js:149-150 | `open` shows the container and changes nothing else |
| `Selectbox.Closed` | jquery.selectbox.js:169-171 | `close` hides the container whatever its prior state and changes nothing else |
| `Selectbox.Toggled` | jquery.selectbox.js:128-134 | a display click shows the container exactly when it was not both shown and non-empty; options, items and display text unchanged |
| `Selectbox.SelectionSyncs` | jquery.selectbox.js:180-189 | after `doSelection(i)` option i alone is selected, the selected count is one, the display text is option i's text, the container is hidden and the widget invariant holds |
| `Selectbox.ClickSelectsByPosition` | jquery.selectbox.js:122-126 | clicking item i selects option i and not another option j with the same text; the display shows item i's text and the form submits item i's value |
| `Selectbox.InitSyncs` | jquery.selectbox.js:136-140 | after the initial selection the container is hidden and the invariant holds; the first marked option stays selected, else option 0 is selected, with the display text matching; with no options the display text is empty |
| `Selectbox.CloseIdempotent` | jquery.selectbox.js:169-171 | closing twice gives the same state as closing once |
| `Selectbox.ToggleEmptyOpens` | jquery.selectbox.js:128-134 | with no items a display click always shows the container |
| `Selectbox.VisibilityKeepsSelection` | jquery.selectbox.js:128-171 | any sequence of `open`, `close` and display clicks leaves options, flags, items and display text unchanged and keeps the invariant |
| `Selectbox.Selectbox.Open` | jquery.selectbox.js:149-161 | the widget's new state is `Opened` of the old one: only the container flag changes |
| `Selectbox.Selectbox.Close` | jquery.selectbox.js:169-171 | the widget's new state is `Closed` of the old one: only the container flag changes |
| `Selectbox.Selectbox.DoSelection` | jquery.selectbox.js:180-189 | sets the display text, closes, clears `selected` on the other options and sets it on option i, in place; the invariant holds afterwards |
| `Selectbox.Selectbox.ClickItem` | jquery.selectbox.js:122-126 | the click on item i performs `doSelection` of the source option at the same index |
| `Selectbox.Selectbox.ClickSelection` | jquery.selectbox.js:128-134 | the display click performs `Toggled` on the widget and keeps the invariant |
| `Selectbox.Selectbox.InitSelect` | jquery.selectbox.js:136-140 | the initial selection performs `Initialized`; afterwards the invariant holds and the container is hidden |
| `Selectbox.Attach` | jquery.selectbox.js:64-75 | the plugin on one `<select>` resolves the settings, builds items mirroring the options and leaves the widget closed with the invariant established |

## Left out

- The open animation (reading `position().top`, setting `top`, animating back over 50 ms): timer-driven and cosmetic; `Open` models only the container flag.
- CSS and class names used as selectors, including `position: absolute` and `z-index`: the class names live only in the `Settings` record. The model assumes the four class names are distinct, so each `find` reaches the intended element.
- DOM insertion and hiding of the `<select>` (`$e.after($html).hide()`), and jQuery's event dispatch: handlers are methods called directly.
- `this.each` over several matched `<select>` elements: `Attach` models one; each widget owns disjoint state.
- `:visible` against ancestors or external CSS: visibility is the container flag, shown and non-empty.
- `<optgroup>` nesting: options are one flat list, so `siblings('option')` reaches every other option.
- Several options carrying `selected`: `find('option[selected]')` would hand all of them to `doSelection`, which would leave all of them selected. The model starts from the first marked option instead.
- Options added, removed or reordered after the build: the items are built once and never rebuilt.
- `$.extend` as a library call: keys other than the five known ones, and deep or prototype semantics, are not modelled.
