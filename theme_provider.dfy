/** The theme provider: the chosen theme, the theme it resolves to, the `light`/`dark`
    class on the document root, and the copy kept in local storage. */
module Theme {
  import opened Wrappers
  import opened Seqs

  /** A theme value. `Other` is a value read back from storage that is none of the three
      names: the provider casts the stored string without checking it. */
  datatype ThemeValue = Light | Dark | System | Other(name: string)

  const DEFAULT_THEME: ThemeValue := System
  const STORAGE_KEY := "theme"

  /** The string a theme is stored and applied as. */
  function ThemeName(t: ThemeValue): string {
    match t
    case Light => "light"
    case Dark => "dark"
    case System => "system"
    case Other(n) => n
  }

  /** The theme a stored string stands for. */
  function ThemeOf(s: string): (t: ThemeValue)
    ensures ThemeName(t) == s
  {
    if s == "light" then Light else if s == "dark" then Dark else if s == "system" then System else Other(s)
  }

  /** A theme as `ThemeOf` produces it: `Other` never carries one of the three names. */
  predicate Canonical(t: ThemeValue) {
    t.Other? ==> t.name != "light" && t.name != "dark" && t.name != "system"
  }

  /** Storing a theme and reading it back gives the same theme. */
  lemma ThemeNameRoundTrip(t: ThemeValue)
    requires Canonical(t)
    ensures ThemeOf(ThemeName(t)) == t
  {
  }

  /** The resolved theme: the operating system's preference for `system`, the theme
      itself otherwise. */
  function Resolve(t: ThemeValue, prefersDark: bool): (r: ThemeValue)
    ensures r != System
    ensures t == System ==> r == (if prefersDark then Dark else Light)
    ensures t != System ==> r == t
  {
    if t == System then (if prefersDark then Dark else Light) else t
  }

  /** `classList.remove("light", "dark")` followed by `classList.add(name)`. */
  function ApplyClass(classes: seq<string>, name: string): (r: seq<string>)
    ensures name in r
    ensures forall c :: c in r && c != name ==> c in classes && c != "light" && c != "dark"
    ensures forall c :: c in classes && c != "light" && c != "dark" ==> c in r
  {
    var kept := Filter((c: string) => c != "light" && c != "dark", classes);
    if name in kept then kept else kept + [name]
  }

  /** After the class update the root carries at most one of `light` and `dark`, and
      which one follows the resolved theme. */
  lemma OneThemeClass(classes: seq<string>, t: ThemeValue, prefersDark: bool)
    requires Canonical(t)
    ensures var r := ApplyClass(classes, ThemeName(Resolve(t, prefersDark)));
      ("dark" in r <==> Resolve(t, prefersDark) == Dark) && ("light" in r <==> Resolve(t, prefersDark) == Light)
  {
  }

  /** The provider's state and the two pieces of the page it writes: the classes of the
      document root and the `theme` entry of local storage. */
  class ThemeProvider {
    var theme: ThemeValue
    var rootClasses: seq<string>
    var stored: Option<string>

    /** `useState(defaultTheme)`. */
    constructor(defaultTheme: ThemeValue, rootClasses: seq<string>, stored: Option<string>)
      ensures theme == defaultTheme && this.rootClasses == rootClasses && this.stored == stored
    {
      theme := defaultTheme;
      this.rootClasses := rootClasses;
      this.stored := stored;
    }

    /** The mount effect: a non-empty stored value replaces the theme. */
    method Restore()
      modifies this
      ensures Truthy(old(stored)) ==> theme == ThemeOf(old(stored).value)
      ensures !Truthy(old(stored)) ==> theme == old(theme)
      ensures rootClasses == old(rootClasses) && stored == old(stored)
    {
      if stored.Some? && stored.value != "" {
        theme := ThemeOf(stored.value);
      }
    }

    /** The effect that runs whenever the theme changes: the root gets the resolved
        theme's class in place of `light`/`dark`, and the theme is stored. */
    method Apply(prefersDark: bool)
      modifies this
      ensures rootClasses == ApplyClass(old(rootClasses), ThemeName(Resolve(theme, prefersDark)))
      ensures stored == Some(ThemeName(theme))
      ensures theme == old(theme)
    {
      var resolved := Resolve(theme, prefersDark);
      rootClasses := ApplyClass(rootClasses, ThemeName(resolved));
      stored := Some(ThemeName(theme));
    }

    method SetTheme(t: ThemeValue)
      modifies this
      ensures theme == t && rootClasses == old(rootClasses) && stored == old(stored)
    {
      theme := t;
    }
  }

  /** A theme that was applied survives a reload: the next provider, whatever its default,
      restores it from storage. */
  method ReloadKeepsTheme(p: ThemeProvider, prefersDark: bool, defaultTheme: ThemeValue)
    returns (next: ThemeProvider)
    requires Canonical(p.theme) && p.theme != Other("")
    modifies p
    ensures fresh(next)
    ensures next.theme == old(p.theme)
  {
    p.Apply(prefersDark);
    next := new ThemeProvider(defaultTheme, [], p.stored);
    next.Restore();
    ThemeNameRoundTrip(old(p.theme));
  }
}
