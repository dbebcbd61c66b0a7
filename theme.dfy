/**
 * The theme controller (hooks/useTheme.tsx): a preference of light, dark or
 * system, persisted under the storage key "theme", resolved against the
 * operating system's dark-mode signal and shown as the root element's "dark"
 * class.
 */
module Theme {
  import opened Wrappers

  /**
   * A theme name as the controller holds it at run time. The source reads the
   * stored string with an unchecked cast, so a stored string other than the
   * three names is carried along as `Unlisted`.
   */
  datatype ThemeName = Light | Dark | System | Unlisted(name: string)

  /** The string written to storage for a theme. */
  function Name(t: ThemeName): string {
    match t
    case Light => "light"
    case Dark => "dark"
    case System => "system"
    case Unlisted(n) => n
  }

  /** The values of the source's ThemeType. */
  predicate IsThemeType(t: ThemeName) {
    !t.Unlisted?
  }

  /** A theme that reading a non-empty stored string can produce. */
  predicate Canonical(t: ThemeName) {
    t.Unlisted? ==> t.name !in {"", "light", "dark", "system"}
  }

  /** The theme a non-empty stored string stands for. */
  function FromName(s: string): ThemeName {
    if s == "light" then Light
    else if s == "dark" then Dark
    else if s == "system" then System
    else Unlisted(s)
  }

  /**
   * The initial preference: the stored value when it is present and non-empty
   * (`savedTheme || 'system'`), otherwise "system".
   */
  function InitialTheme(stored: Option<string>): (t: ThemeName)
    ensures Canonical(t)
    ensures stored.Some? && stored.value != "" ==> Name(t) == stored.value
    ensures stored == None || stored == Some("") ==> t == System
  {
    if stored.Some? && stored.value != "" then FromName(stored.value) else System
  }

  /** Writing a canonical theme and reading it back gives the same theme. */
  lemma NameRoundTrip(t: ThemeName)
    requires Canonical(t)
    ensures Name(t) != ""
    ensures InitialTheme(Some(Name(t))) == t
  {
  }

  /** The effect's resolution: "system" follows the OS signal, any other preference is taken as it is. */
  function Resolve(t: ThemeName, osDark: bool): (r: ThemeName)
    ensures r != System
    ensures r == Dark <==> (t == Dark || (t == System && osDark))
    ensures t != System ==> r == t
    ensures t == System ==> (r == Light <==> !osDark)
  {
    if t == System then (if osDark then Dark else Light) else t
  }

  /** toggleTheme's update: dark becomes light, everything else becomes dark. */
  function Toggle(t: ThemeName): (r: ThemeName)
    ensures r == Light || r == Dark
    ensures r == Light <==> t == Dark
  {
    if t == Dark then Light else Dark
  }

  /** Toggling is an involution on the two explicit themes. */
  lemma ToggleInvolution(t: ThemeName)
    requires t == Light || t == Dark
    ensures Toggle(Toggle(t)) == t
  {
  }

  /**
   * ThemeProvider's state. `listener` is the preference that the currently
   * registered media-query change handler captured (None: no handler).
   */
  class ThemeProvider {
    var theme: ThemeName
    var resolvedTheme: ThemeName
    var stored: Option<string>
    var rootDark: bool
    var listener: Option<ThemeName>

    /**
     * The controller's invariant: the preference is canonical, it is what a
     * reload would read back from storage, and the resolved theme is never "system".
     */
    ghost predicate Valid()
      reads this
    {
      Canonical(theme) && InitialTheme(stored) == theme && resolvedTheme != System
    }

    /** The root carries the "dark" class exactly when the resolved theme is dark. */
    ghost predicate ClassInSync()
      reads this
    {
      rootDark == (resolvedTheme == Dark)
    }

    /** The registered handler belongs to the current preference and the page shows that preference. */
    ghost predicate Tracking()
      reads this
    {
      listener == Some(theme) && ClassInSync() && (theme != System ==> resolvedTheme == theme)
    }

    /** Everything agrees with the preference and the OS signal `osDark`. */
    ghost predicate Settled(osDark: bool)
      reads this
    {
      Tracking() && resolvedTheme == Resolve(theme, osDark)
    }

    /**
     * First render: the preference is read from storage, the resolved theme
     * starts as light, the root keeps its class and no handler is registered yet.
     */
    constructor (initialStored: Option<string>, initialRootDark: bool)
      ensures Valid()
      ensures theme == InitialTheme(initialStored) && resolvedTheme == Light
      ensures stored == initialStored && rootDark == initialRootDark && listener == None
    {
      theme := InitialTheme(initialStored);
      resolvedTheme := Light;
      stored := initialStored;
      rootDark := initialRootDark;
      listener := None;
    }

    /** applyTheme: add or remove the root's "dark" class, then record the resolved theme. */
    method ApplyTheme(newTheme: ThemeName)
      requires Valid() && newTheme != System
      modifies this
      ensures Valid() && ClassInSync()
      ensures resolvedTheme == newTheme && rootDark == (newTheme == Dark)
      ensures theme == old(theme) && stored == old(stored) && listener == old(listener)
    {
      if newTheme == Dark {
        rootDark := true;
      } else {
        rootDark := false;
      }
      resolvedTheme := newTheme;
    }

    /**
     * The effect that runs after each render in which `theme` changed: the old
     * handler is removed, the preference is resolved against the OS signal and
     * applied, and a handler capturing the current preference is registered.
     */
    method RunEffect(osDark: bool)
      requires Valid()
      modifies this
      ensures Valid() && Settled(osDark)
      ensures resolvedTheme == Resolve(theme, osDark)
      ensures theme == old(theme) && stored == old(stored)
    {
      listener := None;
      if theme == System {
        ApplyTheme(if osDark then Dark else Light);
      } else {
        ApplyTheme(theme);
      }
      listener := Some(theme);
    }

    /**
     * The media query's change event, now reporting `osDark`: the handler
     * re-resolves only if it captured "system"; otherwise nothing changes.
     */
    method OsSchemeChange(osDark: bool)
      requires Valid()
      modifies this
      ensures Valid()
      ensures theme == old(theme) && stored == old(stored) && listener == old(listener)
      ensures old(listener) == Some(System) ==>
        resolvedTheme == (if osDark then Dark else Light) && rootDark == osDark
      ensures old(listener) != Some(System) ==>
        resolvedTheme == old(resolvedTheme) && rootDark == old(rootDark)
      ensures old(Tracking()) ==> Settled(osDark)
    {
      if listener == Some(System) {
        ApplyTheme(if osDark then Dark else Light);
      }
    }

    /** toggleTheme: the preference flips between explicit light and dark and is persisted. */
    method ToggleTheme()
      requires Valid()
      modifies this
      ensures Valid()
      ensures theme == Toggle(old(theme)) && stored == Some(Name(theme))
      ensures resolvedTheme == old(resolvedTheme) && rootDark == old(rootDark) && listener == old(listener)
    {
      var newTheme := Toggle(theme);
      stored := Some(Name(newTheme));
      theme := newTheme;
    }

    /** handleSetTheme: persist the new preference, then adopt it. */
    method SetTheme(newTheme: ThemeName)
      requires Valid() && IsThemeType(newTheme)
      modifies this
      ensures Valid()
      ensures theme == newTheme && stored == Some(Name(newTheme))
      ensures resolvedTheme == old(resolvedTheme) && rootDark == old(rootDark) && listener == old(listener)
    {
      stored := Some(Name(newTheme));
      theme := newTheme;
    }

    /** The effect's cleanup on unmount: the change handler is removed. */
    method Unmount()
      modifies this
      ensures listener == None
      ensures theme == old(theme) && stored == old(stored)
      ensures resolvedTheme == old(resolvedTheme) && rootDark == old(rootDark)
    {
      listener := None;
    }
  }

  /**
   * A first visit (nothing stored) follows the operating system: after the
   * first effect and a later change of the OS scheme, the page shows what the
   * OS now reports.
   */
  method FirstVisitFollowsOs(osDarkAtStart: bool, osDarkLater: bool) returns (shown: ThemeName, rootDark: bool)
    ensures shown == (if osDarkLater then Dark else Light)
    ensures rootDark == osDarkLater
  {
    var provider := new ThemeProvider(None, false);
    provider.RunEffect(osDarkAtStart);
    provider.OsSchemeChange(osDarkLater);
    shown, rootDark := provider.resolvedTheme, provider.rootDark;
  }

  /**
   * Toggling picks an explicit theme, persists it and, once the effect has
   * run again, stops the page from following the operating system.
   */
  method ToggleStopsFollowingOs(stored: Option<string>, osDark: bool, osDarkLater: bool)
    returns (theme: ThemeName, shown: ThemeName, rootDark: bool, storedAfter: Option<string>)
    ensures theme == Toggle(InitialTheme(stored))
    ensures shown == theme && rootDark == (theme == Dark)
    ensures storedAfter == Some(Name(theme))
  {
    var provider := new ThemeProvider(stored, false);
    provider.RunEffect(osDark);
    provider.ToggleTheme();
    provider.RunEffect(osDark);
    provider.OsSchemeChange(osDarkLater);
    theme, shown, rootDark, storedAfter := provider.theme, provider.resolvedTheme, provider.rootDark, provider.stored;
  }

  /** A theme that was set is the theme a new provider reads back from storage. */
  method ReloadKeepsPreference(stored: Option<string>, choice: ThemeName) returns (reloaded: ThemeName)
    requires IsThemeType(choice)
    ensures reloaded == choice
  {
    var provider := new ThemeProvider(stored, false);
    provider.SetTheme(choice);
    var next := new ThemeProvider(provider.stored, provider.rootDark);
    reloaded := next.theme;
  }
}
