/**
 * The colour theme: a field mirrored in localStorage ("kv_theme") and in the data-theme
 * attribute of the document element.
 */
module ThemeStore {
  import opened Wrappers
  import opened Browser

  const Dark := "dark"
  const Light := "light"

  /** localStorage.getItem("kv_theme") || "dark" */
  function SavedTheme(storage: map<string, string>): (r: string)
    ensures r != ""
    ensures Truthy(storage, ThemeKey) ==> r == storage[ThemeKey]
    ensures !Truthy(storage, ThemeKey) ==> r == Dark
  {
    GetOr(storage, ThemeKey, Dark)
  }

  /** The theme toggle leads to: "dark" becomes "light", anything else becomes "dark". */
  function NextTheme(theme: string): (r: string)
    ensures r == Dark || r == Light
    ensures r == Light <==> theme == Dark
  {
    if theme == Dark then Light else Dark
  }

  /** Toggling twice restores exactly the two known themes; any other value ends up "light". */
  lemma ToggleTwice(theme: string)
    ensures NextTheme(NextTheme(theme)) == theme <==> theme == Dark || theme == Light
    ensures theme != Dark && theme != Light ==> NextTheme(NextTheme(theme)) == Light
  {
  }

  class Store {
    var theme: string
    const window: Window

    constructor (window: Window)
      ensures this.window == window && theme == SavedTheme(window.storage)
    {
      this.window := window;
      theme := SavedTheme(window.storage);
    }

    /** toggleTheme(): storage, the DOM attribute and the field all take the next theme. */
    method ToggleTheme()
      modifies this, window
      ensures theme == NextTheme(old(theme))
      ensures window.storage == old(window.storage)[ThemeKey := theme]
      ensures window.dataTheme == Some(theme)
      ensures window.path == old(window.path)
    {
      var next := NextTheme(theme);
      window.storage := window.storage[ThemeKey := next];
      window.dataTheme := Some(next);
      theme := next;
    }

    /** initTheme(): the field and the DOM attribute take the saved theme; storage is not written. */
    method InitTheme()
      modifies this, window
      ensures theme == SavedTheme(old(window.storage))
      ensures window.dataTheme == Some(theme)
      ensures window.storage == old(window.storage) && window.path == old(window.path)
    {
      var saved := SavedTheme(window.storage);
      window.dataTheme := Some(saved);
      theme := saved;
    }
  }

  /** After a toggle the saved theme is the new one, so a reload shows what the toggle chose. */
  lemma ReloadAfterToggle(storage: map<string, string>, theme: string)
    ensures SavedTheme(storage[ThemeKey := NextTheme(theme)]) == NextTheme(theme)
  {
    assert storage[ThemeKey := NextTheme(theme)][ThemeKey] == NextTheme(theme);
  }
}
