/** The dark/light theme switch and the value it persists. */
module Theme {
  import opened Wrappers

  const DarkValue: string := "dark"
  const LightValue: string := "light"

  /** `state.isDarkMode`, whether the body carries the `dark-mode` class, and
      the raw `weather_theme` storage value (any string, or absent). */
  datatype ThemeState = ThemeState(isDarkMode: bool, darkClass: bool, stored: Option<string>)

  /** The storage value that matches a mode. */
  function StoredValue(dark: bool): string {
    if dark then DarkValue else LightValue
  }

  /** The page shows the mode it is in and storage remembers it. */
  predicate InSync(t: ThemeState) {
    t.darkClass == t.isDarkMode && t.stored == Some(StoredValue(t.isDarkMode))
  }

  /** `enableDarkMode`. */
  function EnableDarkMode(t: ThemeState): (r: ThemeState)
    ensures r.isDarkMode && InSync(r)
  {
    ThemeState(true, true, Some(DarkValue))
  }

  /** `enableLightMode`. */
  function EnableLightMode(t: ThemeState): (r: ThemeState)
    ensures !r.isDarkMode && InSync(r)
  {
    ThemeState(false, false, Some(LightValue))
  }

  /** `toggleTheme`: flips the mode and persists the new choice. */
  function ToggleTheme(t: ThemeState): (r: ThemeState)
    ensures r.isDarkMode == !t.isDarkMode
    ensures InSync(r)
  {
    if t.isDarkMode then EnableLightMode(t) else EnableDarkMode(t)
  }

  /** `initTheme`: a stored "dark" or "light" wins; anything else defers to the
      system preference. Either way a value is persisted. */
  function InitTheme(t: ThemeState, prefersDark: bool): (r: ThemeState)
    ensures InSync(r)
    ensures r.isDarkMode <==> t.stored == Some(DarkValue) || (t.stored != Some(LightValue) && prefersDark)
  {
    if t.stored == Some(DarkValue) then EnableDarkMode(t)
    else if t.stored == Some(LightValue) then EnableLightMode(t)
    else if prefersDark then EnableDarkMode(t)
    else EnableLightMode(t)
  }

  /** The system colour-scheme listener: it follows the system only while the
      stored value is falsy (absent or the empty string). */
  function SystemSchemeChanged(t: ThemeState, matchesDark: bool): (r: ThemeState)
    ensures t.stored.Some? && t.stored.value != "" ==> r == t
    ensures t.stored.None? || t.stored == Some("") ==> r.isDarkMode == matchesDark && InSync(r)
  {
    if t.stored.None? || t.stored == Some("") then
      (if matchesDark then EnableDarkMode(t) else EnableLightMode(t))
    else t
  }

  /** Toggling twice restores a state that was in sync. */
  lemma ToggleTwiceRestores(t: ThemeState)
    requires InSync(t)
    ensures ToggleTheme(ToggleTheme(t)) == t
  {
  }

  /** Toggling twice always restores the mode, even from an out-of-sync state. */
  lemma ToggleTwiceRestoresMode(t: ThemeState)
    ensures ToggleTheme(ToggleTheme(t)).isDarkMode == t.isDarkMode
  {
  }

  /** After start-up a theme is always persisted, so the system listener never
      changes anything again. */
  lemma SystemChangeIgnoredAfterInit(t: ThemeState, prefersDark: bool, matchesDark: bool)
    ensures SystemSchemeChanged(InitTheme(t, prefersDark), matchesDark) == InitTheme(t, prefersDark)
  {
  }
}
