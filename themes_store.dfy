/**
 * The colour theme: one string value, initialised from the stored preference
 * or the system's dark-mode preference, and persisted under the key "theme"
 * whenever it changes.
 */
module ThemesStore {

  import opened Wrappers

  /** The storage key the theme is persisted under. */
  const StorageKey := "theme"

  predicate IsThemeName(t: string)
  {
    t == "light" || t == "dark"
  }

  /** The values `setTheme` accepts. */
  type ThemeName = t: string | IsThemeName(t) witness "light"

  /** A stored value that JavaScript treats as true: present and not the empty string. */
  predicate Truthy(stored: Option<string>)
  {
    stored.Some? && stored.value != ""
  }

  /**
   * `getInitialTheme`. `browser` says whether `window` exists; `stored` is
   * what storage holds under the key; `prefersDark` is `None` when
   * `matchMedia` is unavailable, else whether the dark-mode query matches.
   */
  function InitialTheme(browser: bool, stored: Option<string>, prefersDark: Option<bool>): (t: string)
    ensures browser && Truthy(stored) ==> t == stored.value
    ensures !(browser && Truthy(stored)) ==> IsThemeName(t)
    ensures !(browser && Truthy(stored)) ==> (t == "dark" <==> browser && prefersDark == Some(true))
  {
    if browser && Truthy(stored) then stored.value
    else if browser && prefersDark == Some(true) then "dark"
    else "light"
  }

  /** The value the store holds after `toggleTheme`. */
  function Toggled(current: string): (t: ThemeName)
    ensures IsThemeName(current) ==> t != current
    ensures !IsThemeName(current) ==> t == "light"
  {
    if current == "light" then "dark" else "light"
  }

  /**
   * Toggling twice restores a light or dark theme. Any other value becomes
   * "light" on the first toggle, so two toggles leave it "dark".
   */
  lemma ToggleTwice(t: string)
    ensures IsThemeName(t) ==> Toggled(Toggled(t)) == t
    ensures !IsThemeName(t) ==> Toggled(t) == "light" && Toggled(Toggled(t)) == "dark"
  {
  }

  /**
   * The theme store. `theme` is the in-memory value, `stored` the value under
   * the key `StorageKey`. `mutated` and `writes` are bookkeeping for the proof:
   * whether `toggleTheme` or `setTheme` has run, and how many storage writes
   * there have been.
   */
  class ThemeStore {
    const browser: bool
    var theme: string
    var stored: Option<string>
    ghost var mutated: bool
    ghost var writes: nat

    /**
     * A usable stored value is the in-memory theme, and after any change the
     * theme is light or dark and, in a browser, stored.
     */
    ghost predicate Valid()
      reads this
    {
      && (browser && Truthy(stored) ==> stored == Some(theme))
      && (browser && mutated ==> stored == Some(theme))
      && (mutated ==> IsThemeName(theme))
    }

    /** `createThemeStore`: start from `getInitialTheme`; nothing is written. */
    constructor (browser: bool, stored: Option<string>, prefersDark: Option<bool>)
      ensures Valid()
      ensures this.browser == browser && this.stored == stored
      ensures theme == InitialTheme(browser, stored, prefersDark)
      ensures !mutated && writes == 0
    {
      this.browser := browser;
      this.stored := stored;
      theme := InitialTheme(browser, stored, prefersDark);
      mutated := false;
      writes := 0;
    }

    /** `toggleTheme`: "light" becomes "dark", anything else "light"; persisted in a browser. */
    method ToggleTheme()
      requires Valid()
      modifies this
      ensures Valid()
      ensures theme == Toggled(old(theme)) && mutated
      ensures stored == if browser then Some(theme) else old(stored)
      ensures writes == old(writes) + if browser then 1 else 0
    {
      theme := Toggled(theme);
      mutated := true;
      if browser {
        stored := Some(theme);
        writes := writes + 1;
      }
    }

    /** `setTheme`: the theme becomes exactly `t`; persisted in a browser. */
    method SetTheme(t: ThemeName)
      requires Valid()
      modifies this
      ensures Valid()
      ensures theme == t && mutated
      ensures stored == if browser then Some(t) else old(stored)
      ensures writes == old(writes) + if browser then 1 else 0
    {
      if browser {
        stored := Some(t);
        writes := writes + 1;
      }
      theme := t;
      mutated := true;
    }
  }

  /** Toggling twice in a browser returns to a light or dark theme and writes storage twice. */
  method ToggleTwiceScenario(stored: Option<string>, prefersDark: Option<bool>)
  {
    var store := new ThemeStore(true, stored, prefersDark);
    var start := store.theme;
    store.ToggleTheme();
    store.ToggleTheme();
    ToggleTwice(start);
    assert IsThemeName(start) ==> store.theme == start;
    assert store.writes == 2 && store.stored == Some(store.theme);
  }

  /**
   * Reloading the page: a new browser store built from what a valid browser
   * store left in storage starts with that store's theme, whenever that
   * store has changed its theme or started from a usable stored value.
   */
  method Reopen(store: ThemeStore, prefersDark: Option<bool>) returns (reopened: ThemeStore)
    requires store.Valid() && store.browser && (store.mutated || Truthy(store.stored))
    ensures reopened.theme == store.theme && reopened.stored == store.stored
  {
    reopened := new ThemeStore(true, store.stored, prefersDark);
  }
}
