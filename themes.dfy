/** The theme registry of the views: three built-in themes, a current
    theme, and operations that switch to, store and create themes. Theme
    names are kept in the order they were first stored, the order in which
    the registry lists them. */
module Themes {
  import opened Common

  datatype ThemeColors = ThemeColors(
    background: string, foreground: string, primary: string, secondary: string,
    warning: string, danger: string, success: string, info: string,
    border: string, text: string, grid: string)

  datatype ThemeFonts = ThemeFonts(family: string, sizes: map<string, int>)

  datatype ThemePlot = ThemePlot(lineWidth: int, gridAlpha: real, markerSize: int, padding: real, animationDuration: int)

  datatype Theme = Theme(name: string, colors: ThemeColors, fonts: ThemeFonts, plot: ThemePlot)

  /** Why an operation refused: both are a `ValueError` naming the theme. */
  datatype Failure = ThemeNotFound(name: string) | ThemeExists(name: string)

  const DefaultColors := ThemeColors(
    "#2c3e50", "#ecf0f1", "#3498db", "#2ecc71", "#f1c40f", "#e74c3c",
    "#2ecc71", "#3498db", "#bdc3c7", "#2c3e50", "#34495e")

  const DefaultFonts := ThemeFonts("Arial", map["small" := 10, "normal" := 12, "large" := 14, "title" := 16])

  const DefaultPlot := ThemePlot(2, 0.3, 8, 0.1, 200)

  const DarkColors := ThemeColors(
    "#1a1a1a", "#ffffff", "#3498db", "#2ecc71", "#f1c40f", "#e74c3c",
    "#2ecc71", "#3498db", "#333333", "#ffffff", "#333333")

  const ContrastColors := ThemeColors(
    "#ffffff", "#000000", "#0000ff", "#00ff00", "#ffff00", "#ff0000",
    "#00ff00", "#0000ff", "#000000", "#000000", "#666666")

  /** A theme with the given name and, for every part not given, the
      default one. */
  function MakeTheme(name: string, colors: Option<ThemeColors>, fonts: Option<ThemeFonts>, plot: Option<ThemePlot>): Theme
  {
    Theme(name,
          if colors.Some? then colors.value else DefaultColors,
          if fonts.Some? then fonts.value else DefaultFonts,
          if plot.Some? then plot.value else DefaultPlot)
  }

  const BuiltinNames: seq<string> := ["default", "dark", "contrast"]

  const BuiltinThemes: map<string, Theme> := map[
    "default" := MakeTheme("default", None, None, None),
    "dark" := MakeTheme("dark", Some(DarkColors), None, None),
    "contrast" := MakeTheme("contrast", Some(ContrastColors), None, None)]

  /** The names listed, in order, without repetition. */
  predicate Distinct(names: seq<string>)
  {
    forall i, j :: 0 <= i < j < |names| ==> names[i] != names[j]
  }

  /** The built-in registry satisfies the registry invariant: each theme is
      stored under its own name, the three names are listed once each, and
      the default theme is present. */
  lemma BuiltinRegistry()
    ensures BuiltinThemes.Keys == set n | n in BuiltinNames
    ensures Distinct(BuiltinNames)
    ensures forall k :: k in BuiltinThemes ==> BuiltinThemes[k].name == k
    ensures "default" in BuiltinThemes
    ensures BuiltinThemes["dark"].colors.background == "#1a1a1a"
    ensures BuiltinThemes["contrast"].colors.background == "#ffffff"
  {
    assert "default" != "dark" && "dark" != "contrast" && "default" != "contrast" by {
      assert |"default"| == 7 && |"dark"| == 4 && |"contrast"| == 8;
    }
    assert BuiltinNames[0] == "default" && BuiltinNames[1] == "dark" && BuiltinNames[2] == "contrast";
  }

  class ThemeManager {
    /** The stored themes, by name. */
    var themes: map<string, Theme>
    /** The names of the stored themes, in the order they were first stored. */
    var names: seq<string>
    /** The name of the current theme. */
    var currentTheme: string

    /** Every theme is stored under its own name, the name list holds each
        stored name once, and the current theme is stored. */
    predicate Valid()
      reads this
    {
      && themes.Keys == (set n | n in names)
      && Distinct(names)
      && (forall k :: k in themes ==> themes[k].name == k)
      && currentTheme in themes
    }

    /** A new manager holds the three built-in themes, with 'default'
        current. */
    constructor()
      ensures Valid()
      ensures themes == BuiltinThemes && names == BuiltinNames
      ensures currentTheme == "default"
    {
      themes := BuiltinThemes;
      names := BuiltinNames;
      currentTheme := "default";
      BuiltinRegistry();
    }

    /** Switches to a stored theme and returns it; an unknown name is
        refused and nothing changes. */
    method LoadTheme(name: string) returns (r: Result<Theme, Failure>)
      requires Valid()
      modifies this
      ensures Valid()
      ensures themes == old(themes) && names == old(names)
      ensures name !in themes ==> r == Err(ThemeNotFound(name)) && currentTheme == old(currentTheme)
      ensures name in themes ==> r.Ok? && r.value == themes[name] && r.value.name == name && currentTheme == name
    {
      if name !in themes {
        return Err(ThemeNotFound(name));
      }
      currentTheme := name;
      r := Ok(themes[name]);
    }

    /** Stores a theme under its name, replacing a theme of that name; a new
        name is listed last. Nothing else changes. */
    method SaveTheme(theme: Theme)
      requires Valid()
      modifies this
      ensures Valid()
      ensures themes == old(themes)[theme.name := theme]
      ensures forall k :: k in old(themes) && k != theme.name ==> k in themes && themes[k] == old(themes)[k]
      ensures names == old(names) + (if theme.name in old(themes) then [] else [theme.name])
      ensures currentTheme == old(currentTheme)
    {
      if theme.name !in themes {
        names := names + [theme.name];
      }
      themes := themes[theme.name := theme];
    }

    /** The names of the stored themes, each once, in the order they were
        first stored. */
    method GetThemeNames() returns (r: seq<string>)
      requires Valid()
      ensures r == names
      ensures Distinct(r) && (set n | n in r) == themes.Keys
    {
      r := names;
    }

    /** The current theme, which is always stored. */
    method GetCurrentTheme() returns (t: Theme)
      requires Valid()
      ensures currentTheme in themes && t == themes[currentTheme]
      ensures t.name == currentTheme
    {
      t := themes[currentTheme];
    }

    /** Creates and stores a theme with a new name, taking the default for
        every part not given; a name already stored is refused and nothing
        changes. */
    method CreateTheme(name: string, colors: Option<ThemeColors>, fonts: Option<ThemeFonts>, plot: Option<ThemePlot>)
      returns (r: Result<Theme, Failure>)
      requires Valid()
      modifies this
      ensures Valid()
      ensures currentTheme == old(currentTheme)
      ensures name in old(themes) ==> r == Err(ThemeExists(name)) && themes == old(themes) && names == old(names)
      ensures name !in old(themes) ==>
        && r == Ok(MakeTheme(name, colors, fonts, plot))
        && themes == old(themes)[name := r.value]
        && names == old(names) + [name]
    {
      if name in themes {
        return Err(ThemeExists(name));
      }
      var theme := MakeTheme(name, colors, fonts, plot);
      SaveTheme(theme);
      r := Ok(theme);
    }
  }
}
