/** The light/dark theme (`setupTheme`, `updateThemeIcon`): the theme is read
    from storage at load, and the toggle button flips it and stores it. */
module Theme {
  import opened Wrappers
  import opened JsText

  const Light := "light"
  const Dark := "dark"
  const MoonIcon := "fas fa-moon"
  const SunIcon := "fas fa-sun"

  /** The `data-theme` the page starts with: the stored theme, or "light" when
      the stored value is null or empty. */
  function InitialTheme(stored: Option<string>): (t: string)
    ensures Truthy(stored) ==> t == stored.value
    ensures !Truthy(stored) ==> t == Light
    ensures t != ""
  {
    if Truthy(stored) then stored.value else Light
  }

  /** The theme a toggle switches to: "dark" from "light", "light" from any other
      value. */
  function Toggled(t: string): (r: string)
    ensures r == Light || r == Dark
    ensures r == Dark <==> t == Light
  {
    if t == Light then Dark else Light
  }

  /** `updateThemeIcon`: the icon class for a theme. */
  function IconClass(t: string): (c: string)
    ensures c == MoonIcon <==> t == Light
    ensures c == MoonIcon || c == SunIcon
  {
    if t == Light then MoonIcon else SunIcon
  }

  /** The theme attribute of the root element, the stored "theme" key, and the
      class of the toggle's icon (None when the page has no such icon). */
  datatype ThemeState = ThemeState(dataTheme: string, stored: Option<string>, icon: Option<string>)

  /** The icon, when there is one, shows the current theme. */
  predicate IconShowsTheme(s: ThemeState) {
    s.icon.None? || s.icon == Some(IconClass(s.dataTheme))
  }

  /** `setupTheme` at load: the stored value is applied and not written back. */
  function Setup(stored: Option<string>, hasIcon: bool): (s: ThemeState)
    ensures s.dataTheme == InitialTheme(stored) && s.stored == stored
    ensures s.icon.Some? <==> hasIcon
    ensures IconShowsTheme(s)
  {
    ThemeState(InitialTheme(stored), stored, if hasIcon then Some(IconClass(InitialTheme(stored))) else None)
  }

  /** One run of the toggle's click listener: the theme flips, is stored, and the
      icon, if present, follows it. */
  function ToggleListener(s: ThemeState): (r: ThemeState)
    ensures r.dataTheme == Toggled(s.dataTheme)
    ensures r.stored == Some(r.dataTheme)
    ensures r.icon.Some? <==> s.icon.Some?
    ensures IconShowsTheme(r)
  {
    var t := Toggled(s.dataTheme);
    ThemeState(t, Some(t), if s.icon.Some? then Some(IconClass(t)) else None)
  }

  /** A click on the toggle as the script is written: the listener is registered
      by each of the two runs of the page's initialisation, so it runs twice. A
      light page stays light, and every other page ends dark. */
  function ClickAsWritten(s: ThemeState): (r: ThemeState)
    ensures r.dataTheme == (if s.dataTheme == Light then Light else Dark)
    ensures (s.dataTheme == Light || s.dataTheme == Dark) ==> r.dataTheme == s.dataTheme
    ensures r.stored == Some(r.dataTheme)
    ensures IconShowsTheme(r)
  {
    ToggleListener(ToggleListener(s))
  }

  /** A click on the toggle with the listener registered once: light and dark
      swap, the new theme is stored so that the next load starts in it, and the
      icon follows. */
  function Click(s: ThemeState): (r: ThemeState)
    ensures (s.dataTheme == Light || s.dataTheme == Dark) ==> r.dataTheme != s.dataTheme
    ensures r.dataTheme == Light || r.dataTheme == Dark
    ensures r.stored == Some(r.dataTheme) && InitialTheme(r.stored) == r.dataTheme
    ensures IconShowsTheme(r)
  {
    ToggleListener(s)
  }

  /** Two toggles return "light" and "dark" to where they started. */
  lemma ToggleInvolution(t: string)
    requires t == Light || t == Dark
    ensures Toggled(Toggled(t)) == t
  {
  }

  /** The first click on a freshly loaded page with nothing stored: as written it
      leaves the page light, while one listener would make it dark. */
  lemma FirstClickAsWrittenStaysLight()
    ensures Setup(None, true).dataTheme == Light
    ensures ClickAsWritten(Setup(None, true)).dataTheme == Light
    ensures Click(Setup(None, true)).dataTheme == Dark
  {
  }

  /** Two clicks bring the page back to its theme. */
  lemma ClickTwiceRestores(s: ThemeState)
    requires s.dataTheme == Light || s.dataTheme == Dark
    ensures Click(Click(s)).dataTheme == s.dataTheme
  {
  }
}
