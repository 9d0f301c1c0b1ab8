/**
 * The plugin's settings: five keys with defaults, overridden key by key by
 * the options object the caller passes to `$('select').selectbox(options)`.
 */
module Settings {
  import opened Wrappers

  /** The resolved settings shared by every widget of one plugin call. */
  datatype Settings = Settings(
    selectClass: string,
    selectionClass: string,
    optionClass: string,
    oContainerClass: string,
    animation: bool)

  /** A caller's options object: `None` for a key the object does not carry. */
  datatype UserOptions = UserOptions(
    selectClass: Option<string>,
    selectionClass: Option<string>,
    optionClass: Option<string>,
    oContainerClass: Option<string>,
    animation: Option<bool>)

  function Defaults(): Settings {
    Settings("jSelectbox", "selected", "jOption", "optionContainer", true)
  }

  /** The value of one key after an override: the caller's when given. */
  function Override<T>(base: T, given: Option<T>): T {
    match given
    case Some(v) => v
    case None => base
  }

  /** `$.extend(base, o)` restricted to the five known keys. */
  function Extend(base: Settings, o: UserOptions): (r: Settings)
    ensures o.selectClass.Some? ==> r.selectClass == o.selectClass.value
    ensures o.selectClass.None? ==> r.selectClass == base.selectClass
    ensures o.selectionClass.Some? ==> r.selectionClass == o.selectionClass.value
    ensures o.selectionClass.None? ==> r.selectionClass == base.selectionClass
    ensures o.optionClass.Some? ==> r.optionClass == o.optionClass.value
    ensures o.optionClass.None? ==> r.optionClass == base.optionClass
    ensures o.oContainerClass.Some? ==> r.oContainerClass == o.oContainerClass.value
    ensures o.oContainerClass.None? ==> r.oContainerClass == base.oContainerClass
    ensures o.animation.Some? ==> r.animation == o.animation.value
    ensures o.animation.None? ==> r.animation == base.animation
  {
    Settings(
      Override(base.selectClass, o.selectClass),
      Override(base.selectionClass, o.selectionClass),
      Override(base.optionClass, o.optionClass),
      Override(base.oContainerClass, o.oContainerClass),
      Override(base.animation, o.animation))
  }

  /**
   * The settings of one plugin call: the defaults, extended by the caller's
   * options when an options object is passed at all.
   */
  function Resolve(options: Option<UserOptions>): (r: Settings)
    ensures options.Some? && options.value.selectClass.Some? ==> r.selectClass == options.value.selectClass.value
    ensures options.Some? && options.value.selectionClass.Some? ==> r.selectionClass == options.value.selectionClass.value
    ensures options.Some? && options.value.optionClass.Some? ==> r.optionClass == options.value.optionClass.value
    ensures options.Some? && options.value.oContainerClass.Some? ==> r.oContainerClass == options.value.oContainerClass.value
    ensures options.Some? && options.value.animation.Some? ==> r.animation == options.value.animation.value
    ensures (options.None? || options.value.selectClass.None?) ==> r.selectClass == "jSelectbox"
    ensures (options.None? || options.value.selectionClass.None?) ==> r.selectionClass == "selected"
    ensures (options.None? || options.value.optionClass.None?) ==> r.optionClass == "jOption"
    ensures (options.None? || options.value.oContainerClass.None?) ==> r.oContainerClass == "optionContainer"
    ensures (options.None? || options.value.animation.None?) ==> r.animation
  {
    match options
    case None => Defaults()
    case Some(o) => Extend(Defaults(), o)
  }

  /** Passing an options object that carries no known key gives the defaults. */
  lemma EmptyOptionsGiveDefaults()
    ensures Resolve(Some(UserOptions(None, None, None, None, None))) == Resolve(None)
  {
  }
}
