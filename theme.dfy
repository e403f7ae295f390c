/**
 * The colour theme: the `data-theme` attribute of the document root and the
 * `theme` entry of the browser's local storage.
 */
module Theme {
  import opened Opt

  const ThemeKey: string := "theme"

  /** The theme `toggleTheme` switches to: "light" from "dark", "dark" from anything else (unset included). */
  function NextTheme(current: Option<string>): (next: string)
    ensures next == "light" <==> current == Some("dark")
    ensures next == "dark" <==> current != Some("dark")
  {
    if current == Some("dark") then "light" else "dark"
  }

  /**
   * Two toggles end on "dark" when starting from "dark" and on "light" from
   * anything else, so they restore the start exactly when it was "dark" or
   * "light"; from an unset attribute they end on "light".
   */
  lemma ToggleTwice(current: Option<string>)
    ensures NextTheme(Some(NextTheme(current))) == if current == Some("dark") then "dark" else "light"
    ensures Some(NextTheme(Some(NextTheme(current)))) == current <==> current == Some("dark") || current == Some("light")
  {
    if current == Some("dark") {
      assert NextTheme(current) == "light";
    } else {
      assert NextTheme(current) == "dark";
      assert "dark" != "light";
    }
  }

  /** The document root's theme attribute and the persisted preference. */
  class ThemeRoot {
    var dataTheme: Option<string>
    var storage: map<string, string>

    /** A page whose root carries no theme attribute yet, over the given stored entries. */
    constructor (storage: map<string, string>)
      ensures this.storage == storage && dataTheme == None
    {
      this.storage := storage;
      dataTheme := None;
    }

    /** `loadSavedTheme`: a non-empty stored theme becomes the attribute. */
    method LoadSavedTheme()
      modifies this
      ensures storage == old(storage)
      ensures dataTheme == if ThemeKey in storage && storage[ThemeKey] != "" then Some(storage[ThemeKey]) else old(dataTheme)
    {
      if ThemeKey in storage && storage[ThemeKey] != "" {
        dataTheme := Some(storage[ThemeKey]);
      }
    }

    /** `toggleTheme`: flip the attribute and persist the new value. */
    method Toggle()
      modifies this
      ensures dataTheme == Some(NextTheme(old(dataTheme)))
      ensures storage == old(storage)[ThemeKey := NextTheme(old(dataTheme))]
    {
      var newTheme := NextTheme(dataTheme);
      dataTheme := Some(newTheme);
      storage := storage[ThemeKey := newTheme];
    }
  }

  /** Two toggles leave the attribute and the stored preference on the same value, "light" unless the start was "dark". */
  method ToggleTwiceOnPage(root: ThemeRoot)
    modifies root
    ensures root.dataTheme == Some(if old(root.dataTheme) == Some("dark") then "dark" else "light")
    ensures ThemeKey in root.storage && Some(root.storage[ThemeKey]) == root.dataTheme
  {
    ToggleTwice(root.dataTheme);
    root.Toggle();
    root.Toggle();
  }
}
