/** The header button that toggles between light and dark: what a click sets, which
    icon it shows and the label it announces. */
module ThemeToggle {
  import opened Theme

  /** `toggleTheme`: from `system` to the opposite of the operating system's preference,
      from `dark` to `light`, and from anything else to `dark`. */
  function Toggle(t: ThemeValue, prefersDark: bool): (n: ThemeValue)
    ensures n == Light || n == Dark
    ensures Resolve(n, prefersDark) != Resolve(t, prefersDark) || t.Other?
  {
    if t == System then (if prefersDark then Light else Dark)
    else if t == Dark then Light
    else Dark
  }

  /** A click always flips what the page shows, and two clicks bring a light or dark page
      back to the theme it started on. */
  lemma ToggleFlips(t: ThemeValue, prefersDark: bool)
    requires !t.Other?
    ensures Resolve(Toggle(t, prefersDark), prefersDark) != Resolve(t, prefersDark)
    ensures Toggle(Toggle(t, prefersDark), prefersDark) == Resolve(t, prefersDark)
  {
  }

  /** The sun icon (the page is dark) or the moon icon (the page is light). When there is
      no window the operating system's preference reads as light. */
  predicate ShowsSun(t: ThemeValue, prefersDark: bool, hasWindow: bool) {
    t == Dark || (t == System && hasWindow && prefersDark)
  }

  /** With a window the icon matches the page: the sun exactly when the resolved theme is
      dark. */
  lemma IconMatchesPage(t: ThemeValue, prefersDark: bool)
    ensures ShowsSun(t, prefersDark, true) <==> Resolve(t, prefersDark) == Dark
  {
  }

  /** `aria-label` as written: it looks at the stored theme only. */
  function LabelAsWritten(t: ThemeValue): (text: string)
    ensures text == "Switch to light mode" <==> t == Dark
  {
    "Switch to " + (if t == Dark then "light" else "dark") + " mode"
  }

  /** On `system` with a dark operating system the page is dark and a click makes it light,
      yet the label announces a switch to dark mode. */
  lemma LabelAsWrittenMisleads()
    ensures Toggle(System, true) == Light
    ensures LabelAsWritten(System) == "Switch to dark mode"
  {
  }

  /** The label naming the theme the click switches to. */
  function Label(t: ThemeValue, prefersDark: bool): (text: string)
    ensures text == "Switch to " + ThemeName(Toggle(t, prefersDark)) + " mode"
  {
    "Switch to " + (if Resolve(t, prefersDark) == Dark then "light" else "dark") + " mode"
  }

  /** The corrected label agrees with the one written down whenever the stored theme is
      light or dark. */
  lemma LabelAgreesOffSystem(t: ThemeValue, prefersDark: bool)
    requires t != System
    ensures Label(t, prefersDark) == LabelAsWritten(t)
  {
  }
}
