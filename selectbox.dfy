/**
 * The widget that mirrors a `<select>`: the source control's options, the
 * mirror's items built from them once, the display caption and the
 * visibility of the option container.
 *
 * The pure part (the transitions on a `WidgetState` and the lemmas about
 * them) says what each handler does; the class `Selectbox` performs the
 * same handlers in place and is proved against those transitions.
 */
module Selectbox {
  import opened Wrappers
  import opened Settings

  /** One `<option>` of the source control; `selected` is its attribute. */
  datatype OptionElem = OptionElem(text: string, value: string, selected: bool)

  /** One `<li>` of the mirror: its text and its `data('value')`. */
  datatype MirrorItem = MirrorItem(text: string, value: string)

  /** Everything a handler can change or read, as one value. */
  datatype WidgetState = WidgetState(
    opts: seq<OptionElem>,
    items: seq<MirrorItem>,
    caption: string,
    shown: bool)

  // ---------------------------------------------------------------------
  // Options and their selected flags
  // ---------------------------------------------------------------------

  /** Item k carries the text and value of option k, in the same order. */
  predicate Mirrors(items: seq<MirrorItem>, opts: seq<OptionElem>) {
    |items| == |opts| &&
    forall k :: 0 <= k < |opts| ==> items[k] == MirrorItem(opts[k].text, opts[k].value)
  }

  /** Option i is selected and no other option is. */
  predicate SelectedAt(opts: seq<OptionElem>, i: nat) {
    i < |opts| && opts[i].selected &&
    forall j :: 0 <= j < |opts| && j != i ==> !opts[j].selected
  }

  /** How many options carry the `selected` flag. */
  function CountSelected(opts: seq<OptionElem>): nat {
    if opts == [] then 0
    else (if opts[0].selected then 1 else 0) + CountSelected(opts[1..])
  }

  lemma {:induction false} CountZero(opts: seq<OptionElem>)
    ensures CountSelected(opts) == 0 <==> forall j :: 0 <= j < |opts| ==> !opts[j].selected
  {
    if opts != [] {
      CountZero(opts[1..]);
      assert forall j :: 1 <= j < |opts| ==> opts[j] == opts[1..][j - 1];
    }
  }

  /** When option i is selected, exactly one option is selected iff it is the only one. */
  lemma {:induction false} ExactlyOne(opts: seq<OptionElem>, i: nat)
    requires i < |opts| && opts[i].selected
    ensures CountSelected(opts) == 1 <==> SelectedAt(opts, i)
  {
    var rest := opts[1..];
    assert forall j :: 1 <= j < |opts| ==> opts[j] == rest[j - 1];
    if i == 0 {
      CountZero(rest);
    } else {
      ExactlyOne(rest, i - 1);
      if opts[0].selected {
        CountZero(rest);
        assert rest[i - 1].selected;
      }
    }
  }

  /**
   * The first option carrying `selected`, if any: what
   * `find('option[selected]')` yields when several are marked.
   */
  function FirstSelected(opts: seq<OptionElem>): (r: Option<nat>)
    ensures r.Some? ==> r.value < |opts| && opts[r.value].selected
    ensures r.Some? ==> forall j :: 0 <= j < r.value ==> !opts[j].selected
    ensures r.None? ==> forall j :: 0 <= j < |opts| ==> !opts[j].selected
  {
    if opts == [] then None
    else if opts[0].selected then Some(0)
    else match FirstSelected(opts[1..])
      case None => None
      case Some(k) => Some(k + 1)
  }

  /** The start option of `initSelect`: the marked one, else the first, else none. */
  function StartOption(opts: seq<OptionElem>): (r: Option<nat>)
    ensures r.None? <==> |opts| == 0
    ensures r.Some? ==> r.value < |opts|
    ensures (exists j :: 0 <= j < |opts| && opts[j].selected) ==> r == FirstSelected(opts) && opts[r.value].selected
    ensures (forall j :: 0 <= j < |opts| ==> !opts[j].selected) && |opts| > 0 ==> r == Some(0)
  {
    if FirstSelected(opts).Some? then FirstSelected(opts)
    else if |opts| > 0 then Some(0)
    else None
  }

  /** The options after `removeAttr('selected')` on the siblings of i and `attr('selected')` on i. */
  function SelectOnly(opts: seq<OptionElem>, i: nat): (r: seq<OptionElem>)
    requires i < |opts|
  {
    seq(|opts|, j requires 0 <= j < |opts| => opts[j].(selected := j == i))
  }

  /** The value a form submission of the source control carries. */
  function SubmittedValue(opts: seq<OptionElem>): Option<string> {
    match FirstSelected(opts)
    case Some(k) => Some(opts[k].value)
    case None => None
  }

  // ---------------------------------------------------------------------
  // Transitions
  // ---------------------------------------------------------------------

  /** Whether `find('.jOption:visible')` finds anything. */
  predicate AnyItemVisible(s: WidgetState) {
    s.shown && |s.items| > 0
  }

  /** `open`: show the option container. */
  function Opened(s: WidgetState): (r: WidgetState)
    ensures r.shown && r.(shown := s.shown) == s
  {
    s.(shown := true)
  }

  /** `close`: hide the option container. */
  function Closed(s: WidgetState): (r: WidgetState)
    ensures !r.shown && r.(shown := s.shown) == s
  {
    s.(shown := false)
  }

  /** The click on the display: close when an item is visible, open otherwise. */
  function Toggled(s: WidgetState): (r: WidgetState)
    ensures r.shown <==> !(s.shown && |s.items| > 0)
    ensures r.opts == s.opts && r.items == s.items && r.caption == s.caption
  {
    if AnyItemVisible(s) then Closed(s) else Opened(s)
  }

  /** `doSelection` of option i: caption, close, then the flags. */
  function Selected(s: WidgetState, i: nat): WidgetState
    requires i < |s.opts|
  {
    var captioned := s.(caption := s.opts[i].text);
    var closed := Closed(captioned);
    closed.(opts := SelectOnly(closed.opts, i))
  }

  /**
   * The initial selection of `initSelect`. With no option at all,
   * `doSelection` runs on an empty set: the caption becomes the empty text
   * and the container is closed, no flag changes.
   */
  function Initialized(s: WidgetState): WidgetState {
    match StartOption(s.opts)
    case Some(i) => Selected(s, i)
    case None => Closed(s.(caption := ""))
  }

  /**
   * The widget's invariant once bound: items mirror the options; with
   * options, exactly one is selected and the caption is its text; with none,
   * the caption is empty.
   */
  predicate Synced(s: WidgetState) {
    Mirrors(s.items, s.opts) &&
    if |s.opts| == 0 then s.caption == ""
    else CountSelected(s.opts) == 1 &&
         forall j :: 0 <= j < |s.opts| && s.opts[j].selected ==> s.caption == s.opts[j].text
  }

  // ---------------------------------------------------------------------
  // Properties of the transitions
  // ---------------------------------------------------------------------

  /** After `doSelection(i)`: option i alone is selected, the caption is its text, the list is closed. */
  lemma SelectionSyncs(s: WidgetState, i: nat)
    requires Mirrors(s.items, s.opts) && i < |s.opts|
    ensures SelectedAt(Selected(s, i).opts, i)
    ensures CountSelected(Selected(s, i).opts) == 1
    ensures Selected(s, i).caption == s.opts[i].text && !Selected(s, i).shown
    ensures Synced(Selected(s, i))
  {
    var r := Selected(s, i);
    assert SelectedAt(r.opts, i);
    ExactlyOne(r.opts, i);
  }

  /**
   * Clicking mirror item i selects source option i by position, even when
   * another option j shows the same text, and the form then submits the
   * value item i carries.
   */
  lemma ClickSelectsByPosition(s: WidgetState, i: nat, j: nat)
    requires Mirrors(s.items, s.opts) && i < |s.items| && j < |s.items| && i != j
    requires s.items[i].text == s.items[j].text
    ensures Selected(s, i).opts[i].selected && !Selected(s, i).opts[j].selected
    ensures Selected(s, i).caption == s.items[i].text
    ensures SubmittedValue(Selected(s, i).opts) == Some(s.items[i].value)
  {
  }

  /**
   * After `initSelect`: closed; the marked option (the first one if several)
   * stays selected, else option 0 is selected; exactly one option is
   * selected and the caption is its text; with no option the caption is empty.
   */
  lemma InitSyncs(s: WidgetState)
    requires Mirrors(s.items, s.opts)
    ensures !Initialized(s).shown && Synced(Initialized(s))
    ensures FirstSelected(s.opts).Some? ==>
      SelectedAt(Initialized(s).opts, FirstSelected(s.opts).value) &&
      Initialized(s).caption == s.opts[FirstSelected(s.opts).value].text
    ensures FirstSelected(s.opts).None? && |s.opts| > 0 ==>
      SelectedAt(Initialized(s).opts, 0) && Initialized(s).caption == s.opts[0].text
    ensures |s.opts| == 0 ==> Initialized(s).caption == "" && Initialized(s).opts == []
  {
    match StartOption(s.opts)
    case Some(i) => SelectionSyncs(s, i);
    case None =>
  }

  /** Closing twice is closing once. */
  lemma CloseIdempotent(s: WidgetState)
    ensures Closed(Closed(s)) == Closed(s)
  {
  }

  /** A click on the display of a widget without options always opens it. */
  lemma ToggleEmptyOpens(s: WidgetState)
    requires |s.items| == 0
    ensures Toggled(s).shown
  {
  }

  /** The handlers that only change visibility. */
  datatype VisibilityEvent = OpenCall | CloseCall | DisplayClick

  function AfterEvents(s: WidgetState, events: seq<VisibilityEvent>): WidgetState
    decreases |events|
  {
    if events == [] then s
    else
      var next := match events[0]
        case OpenCall => Opened(s)
        case CloseCall => Closed(s)
        case DisplayClick => Toggled(s);
      AfterEvents(next, events[1..])
  }

  /** No sequence of open, close and display clicks changes the selection or the caption. */
  lemma {:induction false} VisibilityKeepsSelection(s: WidgetState, events: seq<VisibilityEvent>)
    ensures AfterEvents(s, events).opts == s.opts
    ensures AfterEvents(s, events).caption == s.caption
    ensures AfterEvents(s, events).items == s.items
    ensures Synced(s) ==> Synced(AfterEvents(s, events))
    decreases |events|
  {
    if events != [] {
      var next := match events[0]
        case OpenCall => Opened(s)
        case CloseCall => Closed(s)
        case DisplayClick => Toggled(s);
      VisibilityKeepsSelection(next, events[1..]);
    }
  }

  // ---------------------------------------------------------------------
  // Building the mirror
  // ---------------------------------------------------------------------

  /** The loop of `getHTML`: one item per source option, in order. */
  method BuildItems(opts: array<OptionElem>) returns (items: seq<MirrorItem>)
    ensures Mirrors(items, opts[..])
  {
    items := [];
    for i := 0 to opts.Length
      invariant Mirrors(items, opts[..i])
    {
      items := items + [MirrorItem(opts[i].text, opts[i].value)];
    }
  }

  // ---------------------------------------------------------------------
  // The widget
  // ---------------------------------------------------------------------

  class Selectbox {
    /** The source control's options, shared with the `<select>` (`data('elem')`). */
    const source: array<OptionElem>
    const settings: Settings
    /** The mirror's items, created once by `getHTML`. */
    const items: seq<MirrorItem>
    /** The text of the display's inner element. */
    var caption: string
    /** Whether the option container is shown. */
    var shown: bool

    ghost predicate Valid()
      reads this, source
    {
      Mirrors(items, source[..])
    }

    ghost function State(): WidgetState
      reads this, source
    {
      WidgetState(source[..], items, caption, shown)
    }

    /**
     * `getHTML`: the items mirror the options; the display is empty and the
     * container is not hidden yet.
     */
    constructor (source: array<OptionElem>, settings: Settings)
      ensures this.source == source && this.settings == settings
      ensures Valid() && caption == "" && shown
    {
      var built := BuildItems(source);
      this.source := source;
      this.settings := settings;
      items := built;
      caption := "";
      shown := true;
    }

    /** `open`. The cascade animation is not modelled. */
    method Open()
      requires Valid()
      modifies this`shown
      ensures Valid() && State() == Opened(old(State()))
    {
      shown := true;
    }

    /** `close`. */
    method Close()
      requires Valid()
      modifies this`shown
      ensures Valid() && State() == Closed(old(State()))
    {
      shown := false;
    }

    /** `doSelection` of source option i. */
    method DoSelection(i: nat)
      requires Valid() && i < source.Length
      modifies this`caption, this`shown, source
      ensures Valid() && State() == Selected(old(State()), i)
      ensures Synced(State())
    {
      caption := source[i].text;
      Close();
      forall j | 0 <= j < source.Length && j != i {
        source[j] := source[j].(selected := false);
      }
      source[i] := source[i].(selected := true);
      SelectionSyncs(old(State()), i);
    }

    /** The click handler of mirror item i: select the source option at the same index. */
    method ClickItem(i: nat)
      requires Valid() && i < |items|
      modifies this`caption, this`shown, source
      ensures Valid() && State() == Selected(old(State()), i)
      ensures Synced(State())
    {
      DoSelection(i);
    }

    /** The click handler of the display. */
    method ClickSelection()
      requires Valid()
      modifies this`shown
      ensures Valid() && State() == Toggled(old(State()))
      ensures old(Synced(State())) ==> Synced(State())
    {
      if shown && |items| > 0 {
        Close();
      } else {
        Open();
      }
    }

    /** The initial selection of `initSelect`. */
    method InitSelect()
      requires Valid()
      modifies this`caption, this`shown, source
      ensures Valid() && State() == Initialized(old(State()))
      ensures Synced(State()) && !shown
    {
      InitSyncs(State());
      match StartOption(source[..])
      case Some(i) =>
        DoSelection(i);
      case None =>
        caption := "";
        Close();
    }
  }

  /**
   * The plugin applied to one `<select>`: resolve the settings, build the
   * mirror, do the initial selection.
   */
  method Attach(source: array<OptionElem>, options: Option<UserOptions>) returns (box: Selectbox)
    modifies source
    ensures fresh(box) && box.source == source && box.settings == Resolve(options)
    ensures box.Valid() && Mirrors(box.items, old(source[..]))
    ensures box.State() == Initialized(WidgetState(old(source[..]), box.items, "", true))
    ensures Synced(box.State()) && !box.shown
  {
    var settings := Resolve(options);
    box := new Selectbox(source, settings);
    box.InitSelect();
  }
}
