/** The theme switcher (src/modules/shared/components/theme-menu.tsx): the
    menu item offers the theme after the current one in the cycle light,
    dark, system. */
module ThemeMenu {
  import opened Wrappers
  import Lists

  /** An entry of `themes`; the icon is not modelled. */
  datatype ThemeOption = ThemeOption(value: string, caption: string)

  /** `themes`, in cycle order. */
  function Themes(): seq<ThemeOption> {
    [ThemeOption("light", "Light"), ThemeOption("dark", "Dark"), ThemeOption("system", "System")]
  }

  /** The test `t.value === theme`; an unset theme matches nothing. */
  function ValueIs(theme: Option<string>): ThemeOption -> bool {
    (t: ThemeOption) => theme.Some? && t.value == theme.value
  }

  /** `themes.findIndex(t => t.value === theme)`, with -1 when none
      matches. */
  function ThemeIndex(themes: seq<ThemeOption>, theme: Option<string>): (i: int)
    ensures -1 <= i < |themes|
    ensures i >= 0 ==> theme.Some? && themes[i].value == theme.value
    ensures i == -1 <==> forall j :: 0 <= j < |themes| ==> !(theme.Some? && themes[j].value == theme.value)
  {
    match Lists.FindIndex(ValueIs(theme), themes)
    case Some(k) => k
    case None => -1
  }

  /** `nextTheme`: the entry after the current theme's, wrapping round; an
      unknown or unset theme counts as index -1, so the next is the first. */
  function Next(themes: seq<ThemeOption>, theme: Option<string>): (t: ThemeOption)
    requires |themes| > 0
    ensures t in themes
    ensures ThemeIndex(themes, theme) == -1 ==> t == themes[0]
    ensures 0 <= ThemeIndex(themes, theme) < |themes| - 1 ==> t == themes[ThemeIndex(themes, theme) + 1]
    ensures ThemeIndex(themes, theme) == |themes| - 1 ==> t == themes[0]
  {
    var k := ThemeIndex(themes, theme) + 1;
    ModWrap(k, |themes|);
    themes[k % |themes|]
  }

  /** `k % n` for `0 <= k <= n`: `k` itself, except `n` wraps to 0. */
  lemma ModWrap(k: int, n: int)
    requires 0 <= k <= n && n > 0
    ensures k % n == if k == n then 0 else k
  {
  }

  /** The theme the menu item switches to. */
  function NextTheme(theme: Option<string>): (t: ThemeOption)
    ensures t in Themes()
    ensures theme.Some? ==> t.value != theme.value
  {
    Next(Themes(), theme)
  }

  /** The cycle: light to dark, dark to system, system back to light, and
      anything else to light. */
  lemma Cycle(theme: Option<string>)
    ensures NextTheme(Some("light")).value == "dark"
    ensures NextTheme(Some("dark")).value == "system"
    ensures NextTheme(Some("system")).value == "light"
    ensures theme != Some("light") && theme != Some("dark") && theme != Some("system") ==>
      NextTheme(theme) == ThemeOption("light", "Light")
  {
    var ts := Themes();
    assert ThemeIndex(ts, Some("light")) == 0 by { assert ValueIs(Some("light"))(ts[0]); }
    assert ThemeIndex(ts, Some("dark")) == 1 by { assert ValueIs(Some("dark"))(ts[1]); }
    assert ThemeIndex(ts, Some("system")) == 2 by { assert ValueIs(Some("system"))(ts[2]); }
  }

  /** Clicking three times from any listed theme comes back to it. */
  lemma ThreeClicksReturn(v: string)
    requires v == "light" || v == "dark" || v == "system"
    ensures NextTheme(Some(NextTheme(Some(NextTheme(Some(v)).value)).value)).value == v
  {
    Cycle(Some(v));
  }

  /** The item renders nothing until mounted, then offers the next theme. */
  function Render(mounted: bool, theme: Option<string>): (r: Option<ThemeOption>)
    ensures r.None? <==> !mounted
    ensures r.Some? ==> r.value == NextTheme(theme) && r.value.value != (if theme.Some? then theme.value else "")
  {
    if mounted then Cycle(theme); Some(NextTheme(theme)) else None
  }
}
