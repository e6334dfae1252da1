/** The theme hook of the web client (client/web/src/hooks/useTheme.ts). The browser's
    storage is a map held by the state object; the system colour-scheme preference and
    the presence of a window are parameters. */
module ThemeHook {
  import opened Wrappers

  datatype Theme = Light | Dark | System

  /** The string stored under the 'theme' key. */
  function Name(t: Theme): string {
    match t
    case Light => "light"
    case Dark => "dark"
    case System => "system"
  }

  /** The stored string when it is one of 'light', 'dark' and 'system'. */
  function Parse(s: Option<string>): (r: Option<Theme>)
    ensures r.Some? <==> s.Some? && s.value in {"light", "dark", "system"}
    ensures r.Some? ==> Name(r.value) == s.value
  {
    match s
    case Some("light") => Some(Light)
    case Some("dark") => Some(Dark)
    case Some("system") => Some(System)
    case _ => None
  }

  const StorageKey := "theme"

  /** The initial value of `theme`: the stored theme when valid; otherwise dark when the
      system prefers dark, else light; light outside a browser. */
  function InitialTheme(hasWindow: bool, saved: Option<string>, prefersDark: bool): (t: Theme)
    ensures hasWindow && Parse(saved).Some? ==> t == Parse(saved).value
    ensures hasWindow && Parse(saved).None? ==> t == (if prefersDark then Dark else Light)
    ensures !hasWindow ==> t == Light
  {
    if hasWindow then
      match Parse(saved)
      case Some(t) => t
      case None => if prefersDark then Dark else Light
    else Light
  }

  /** A theme that was stored is the theme the hook starts with next time. */
  lemma StoredThemeRestored(t: Theme, prefersDark: bool)
    ensures InitialTheme(true, Some(Name(t)), prefersDark) == t
  {
  }

  /** The transition of `toggleTheme`. */
  function Toggle(t: Theme): (n: Theme)
    ensures t == Light ==> n == Dark
    ensures t == Dark ==> n == System
    ensures t == System ==> n == Light
  {
    match t
    case Light => Dark
    case Dark => System
    case System => Light
  }

  /** Toggling is a cycle of length three: one or two toggles always change the theme,
      three return to it. */
  lemma ToggleCycle(t: Theme)
    ensures Toggle(t) != t && Toggle(Toggle(t)) != t
    ensures Toggle(Toggle(Toggle(t))) == t
  {
  }

  /** `isDark`: 'dark', or 'system' while the system prefers dark (never outside a browser). */
  predicate IsDark(t: Theme, hasWindow: bool, prefersDark: bool) {
    t == Dark || (t == System && hasWindow && prefersDark)
  }

  /** `isLight`: 'light', or 'system' while the system prefers light. */
  predicate IsLight(t: Theme, hasWindow: bool, prefersLight: bool) {
    t == Light || (t == System && hasWindow && prefersLight)
  }

  lemma IsDarkCases(t: Theme, prefersDark: bool, prefersLight: bool)
    ensures IsDark(Dark, true, prefersDark) && !IsDark(Light, true, prefersDark)
    ensures IsDark(System, true, prefersDark) == prefersDark
    ensures IsLight(Light, true, prefersLight) && !IsLight(Dark, true, prefersLight)
    ensures !IsDark(t, false, prefersDark) || t == Dark
  {
  }

  class ThemeState {
    var theme: Theme
    var storage: map<string, string>

    constructor (hasWindow: bool, storage0: map<string, string>, prefersDark: bool)
      ensures theme == InitialTheme(hasWindow, if StorageKey in storage0 then Some(storage0[StorageKey]) else None, prefersDark)
      ensures storage == storage0
    {
      theme := InitialTheme(hasWindow, if StorageKey in storage0 then Some(storage0[StorageKey]) else None, prefersDark);
      storage := storage0;
    }

    method ToggleTheme()
      modifies this
      ensures theme == Toggle(old(theme))
      ensures storage == old(storage)[StorageKey := Name(theme)]
    {
      theme := Toggle(theme);
      storage := storage[StorageKey := Name(theme)];
    }

    method SetThemeMode(t: Theme)
      modifies this
      ensures theme == t
      ensures storage == old(storage)[StorageKey := Name(t)]
    {
      theme := t;
      storage := storage[StorageKey := Name(t)];
    }
  }
}
