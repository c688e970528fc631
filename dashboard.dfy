/** The dashboard's theme preference: at startup the stored preference (or,
    failing that, the system's colour-scheme preference) decides dark mode;
    the toggle flips it, updates the document's `dark` class and stores the
    new choice. The browser's storage, the document's class list and the
    media query are modelled as a string map, a boolean and an optional
    boolean. */
module Dashboard {
  import opened Backend

  /** The storage key of the preference. */
  const ThemeKey := "theme"

  /** `localStorage.getItem('theme')`: `null` when the key is absent. */
  function StoredTheme(storage: map<string, string>): (stored: Option<string>)
    ensures stored.Some? <==> ThemeKey in storage
    ensures stored.Some? ==> stored.value == storage[ThemeKey]
  {
    if ThemeKey in storage then Some(storage[ThemeKey]) else None
  }

  /** `shouldUseDark`, from the stored value and the media query's
      `matches` (`None` when `matchMedia` does not exist). */
  function ShouldUseDark(stored: Option<string>, prefersDark: Option<bool>): (dark: bool)
    ensures stored == Some("dark") ==> dark
    ensures stored.Some? && stored.value != "" && stored.value != "dark" ==> !dark
    ensures stored.None? || stored == Some("") ==> (dark <==> prefersDark == Some(true))
  {
    stored == Some("dark") || ((stored.None? || stored.value == "") && prefersDark == Some(true))
  }

  /** The value the toggle stores for a theme. */
  function ThemeValue(dark: bool): (v: string)
    ensures v == "dark" <==> dark
    ensures !dark ==> v == "light"
    ensures v != ""
  {
    if dark then "dark" else "light"
  }

  /** A stored choice decides the next startup whatever the system prefers. */
  lemma StoredChoiceWins(dark: bool, prefersDark: Option<bool>)
    ensures ShouldUseDark(Some(ThemeValue(dark)), prefersDark) == dark
  {
  }

  class Page {
    /** Whether `window` exists; without it both handlers do nothing. */
    const hasWindow: bool
    var isDark: bool
    /** Whether the document element carries the `dark` class. */
    var darkClass: bool
    var storage: map<string, string>

    /** The class and the state agree. */
    predicate Consistent()
      reads this
    {
      darkClass == isDark
    }

    /** The first render: `isDark` starts false, whatever the document and
        the storage hold. */
    constructor (hasWindow: bool, darkClass: bool, storage: map<string, string>)
      ensures this.hasWindow == hasWindow && this.darkClass == darkClass && this.storage == storage
      ensures !isDark
    {
      this.hasWindow := hasWindow;
      this.darkClass := darkClass;
      this.storage := storage;
      isDark := false;
    }

    /** The mount effect, given the media query's outcome. */
    method ApplyStartupTheme(prefersDark: Option<bool>)
      modifies this
      ensures storage == old(storage)
      ensures hasWindow ==> isDark == ShouldUseDark(StoredTheme(storage), prefersDark) && Consistent()
      ensures !hasWindow ==> isDark == old(isDark) && darkClass == old(darkClass)
    {
      if !hasWindow {
        return;
      }
      var stored := StoredTheme(storage);
      var shouldUseDark := ShouldUseDark(stored, prefersDark);
      if shouldUseDark {
        darkClass := true;
        isDark := true;
      } else {
        darkClass := false;
        isDark := false;
      }
    }

    /** `toggleTheme`. */
    method ToggleTheme()
      modifies this
      ensures hasWindow ==> isDark == !old(isDark) && Consistent()
      ensures hasWindow ==> storage == old(storage)[ThemeKey := ThemeValue(isDark)]
      ensures !hasWindow ==> isDark == old(isDark) && darkClass == old(darkClass) && storage == old(storage)
    {
      if !hasWindow {
        return;
      }
      var next := !isDark;
      isDark := next;
      darkClass := next;
      storage := storage[ThemeKey := ThemeValue(next)];
    }
  }

  /** Toggling twice restores the theme and the class, and leaves the
      original theme stored. */
  method ToggleTwice(p: Page)
    requires p.hasWindow && p.Consistent()
    modifies p
    ensures p.isDark == old(p.isDark) && p.darkClass == old(p.darkClass)
    ensures p.storage == old(p.storage)[ThemeKey := ThemeValue(p.isDark)]
  {
    p.ToggleTheme();
    p.ToggleTheme();
  }

  /** The persistence round trip: after a toggle, reloading the page with
      the same storage starts in the theme the toggle chose, whatever the
      system prefers. */
  method ToggleThenReload(p: Page, prefersDark: Option<bool>) returns (reloaded: Page)
    requires p.hasWindow
    modifies p
    ensures fresh(reloaded)
    ensures reloaded.isDark == p.isDark && reloaded.darkClass == p.darkClass
  {
    p.ToggleTheme();
    reloaded := new Page(true, false, p.storage);
    reloaded.ApplyStartupTheme(prefersDark);
    StoredChoiceWins(p.isDark, prefersDark);
  }
}
