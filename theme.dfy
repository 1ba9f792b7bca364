/**
 * The theme switcher (js/themeSwitcher.js): the current theme, the one
 * persisted value (the `theme` entry of local storage, a plain field here),
 * and what `applyTheme` shows: the root element's `data-theme`, the
 * display name, and the `active` mark on the dropdown options.
 *
 * The dropdown's options are given by their `data-theme` values, since the
 * page markup that declares them is not part of this model.
 */
module Theme {
  import opened Wrappers

  /** The eight known themes and their display names. */
  const Themes: map<string, string> := map[
    "vscode-dark" := "VS Code Dark", "monokai" := "Monokai", "dracula" := "Dracula",
    "one-dark" := "One Dark", "solarized-dark" := "Solarized Dark", "nord" := "Nord",
    "tokyo-night" := "Tokyo Night", "github-dark" := "GitHub Dark"]

  const DefaultTheme: string := "vscode-dark"

  lemma EightThemes()
    ensures |Themes| == 8 && DefaultTheme in Themes
  {
    assert Themes.Keys == {"vscode-dark", "monokai", "dracula", "one-dark", "solarized-dark", "nord", "tokyo-night", "github-dark"};
  }

  /** `this.themes[theme]`: the display name, `None` for an unknown key. */
  function DisplayName(theme: string): (r: Option<string>)
    ensures r.Some? <==> theme in Themes
    ensures r.Some? ==> r.value == Themes[theme] && r.value != ""
  {
    if theme in Themes then Some(Themes[theme]) else None
  }

  /** Everything the switcher owns, as a value. */
  datatype ThemeState = ThemeState(
    current: string,
    stored: Option<string>,
    rootTheme: string,
    shownName: Option<string>,
    optionActive: seq<bool>)

  /** The `active` marks `applyTheme(theme)` puts on the options: exactly those whose `data-theme` is `theme`. */
  function OptionMarks(options: seq<string>, theme: string): (r: seq<bool>)
    ensures |r| == |options|
    ensures forall i :: 0 <= i < |r| ==> (r[i] <==> options[i] == theme)
  {
    if options == [] then [] else [options[0] == theme] + OptionMarks(options[1..], theme)
  }

  /** `applyTheme(theme)`: the root attribute, the display name and the option marks. */
  function Apply(s: ThemeState, theme: string, options: seq<string>): (r: ThemeState)
    ensures r.current == s.current && r.stored == s.stored && r.rootTheme == theme
    ensures r.shownName.Some? <==> theme in Themes
    ensures |r.optionActive| == |options|
    ensures Shows(r, options) <==> theme == s.current
  {
    s.(rootTheme := theme, shownName := DisplayName(theme), optionActive := OptionMarks(options, theme))
  }

  /** The constructor and `init`: the stored theme when non-empty (known or not), else the default. */
  function Initial(stored: Option<string>, options: seq<string>): (s: ThemeState)
    ensures s.stored == stored
    ensures OrNull(stored).Some? ==> s.current == stored.value
    ensures OrNull(stored).None? ==> s.current == DefaultTheme
    ensures s.rootTheme == s.current
  {
    var current := OrElse(stored, DefaultTheme);
    Apply(ThemeState(current, stored, "", None, []), current, options)
  }

  /** `switchTheme(theme)`: a known key becomes current, applied and persisted; anything else changes nothing. */
  function Switch(s: ThemeState, theme: string, options: seq<string>): (r: ThemeState)
    ensures theme in Themes ==> r.current == theme && r.stored == Some(theme) && Shows(r, options)
    ensures theme !in Themes ==> r == s
  {
    if theme in Themes then Apply(s.(current := theme), theme, options).(stored := Some(theme)) else s
  }

  /** A known key sets the current theme and the persisted value to that key and shows its name. */
  lemma SwitchKnown(s: ThemeState, theme: string, options: seq<string>)
    requires theme in Themes
    ensures var t := Switch(s, theme, options);
            t.current == theme && t.stored == Some(theme) && t.rootTheme == theme
            && t.shownName == Some(Themes[theme])
  {
  }

  /** An unknown key changes neither the current theme nor the persisted value, nor anything shown. */
  lemma SwitchUnknown(s: ThemeState, theme: string, options: seq<string>)
    requires theme !in Themes
    ensures Switch(s, theme, options) == s
  {
  }

  /** Switching to a theme twice is switching to it once. */
  lemma SwitchIdempotent(s: ThemeState, theme: string, options: seq<string>)
    ensures Switch(Switch(s, theme, options), theme, options) == Switch(s, theme, options)
  {
  }

  /** After a switch, the state is consistent: what is shown is the current theme. */
  predicate Shows(s: ThemeState, options: seq<string>)
  {
    s.rootTheme == s.current && s.shownName == DisplayName(s.current) && s.optionActive == OptionMarks(options, s.current)
  }

  lemma SwitchShows(s: ThemeState, theme: string, options: seq<string>)
    requires Shows(s, options)
    ensures Shows(Switch(s, theme, options), options)
  {
  }

  lemma InitialShows(stored: Option<string>, options: seq<string>)
    ensures Shows(Initial(stored, options), options)
  {
  }

  /** With distinct option values, exactly one option is marked when the theme is among them, none otherwise. */
  lemma {:induction false} ExactlyOneOption(options: seq<string>, theme: string)
    requires forall i, j :: 0 <= i < j < |options| ==> options[i] != options[j]
    ensures var marks := OptionMarks(options, theme);
            |set i | 0 <= i < |marks| && marks[i]| == (if theme in options then 1 else 0)
  {
    var marks := OptionMarks(options, theme);
    if theme in options {
      var k :| 0 <= k < |options| && options[k] == theme;
      assert (set i | 0 <= i < |marks| && marks[i]) == {k};
    } else {
      assert (set i | 0 <= i < |marks| && marks[i]) == {};
    }
  }

  /** The theme switcher. */
  class ThemeSwitcher {
    const options: seq<string>
    var currentTheme: string
    /** The persisted `theme` value. */
    var stored: Option<string>
    var rootTheme: string
    var shownName: Option<string>
    var optionActive: seq<bool>
    var dropdownOpen: bool

    function State(): ThemeState
      reads this
    {
      ThemeState(currentTheme, stored, rootTheme, shownName, optionActive)
    }

    constructor(stored: Option<string>, options: seq<string>)
      ensures this.options == options
      ensures State() == Initial(stored, options)
      ensures !dropdownOpen
    {
      this.options := options;
      this.stored := stored;
      currentTheme := OrElse(stored, DefaultTheme);
      rootTheme := "";
      shownName := None;
      optionActive := [];
      dropdownOpen := false;
      new;
      ApplyTheme(currentTheme);
    }

    /** `applyTheme(theme)`, its loop over the options included. */
    method ApplyTheme(theme: string)
      modifies this
      ensures State() == Apply(old(State()), theme, options)
      ensures dropdownOpen == old(dropdownOpen)
    {
      rootTheme := theme;
      shownName := DisplayName(theme);
      var marks: seq<bool> := [];
      var i := 0;
      while i < |options|
        invariant 0 <= i <= |options|
        invariant |marks| == i
        invariant forall j :: 0 <= j < i ==> (marks[j] <==> options[j] == theme)
      {
        marks := marks + [options[i] == theme];
        i := i + 1;
      }
      optionActive := marks;
    }

    /** `switchTheme(theme)`. */
    method SwitchTheme(theme: string)
      modifies this
      ensures State() == Switch(old(State()), theme, options)
      ensures dropdownOpen == old(dropdownOpen)
    {
      if DisplayName(theme).Some? {
        currentTheme := theme;
        ApplyTheme(theme);
        stored := Some(theme);
      }
    }

    /** A click on the theme button toggles the dropdown. */
    method ToggleDropdown()
      modifies this
      ensures dropdownOpen == !old(dropdownOpen) && State() == old(State())
    {
      dropdownOpen := !dropdownOpen;
    }

    /** A click outside the button and the dropdown closes it. */
    method CloseDropdown()
      modifies this
      ensures !dropdownOpen && State() == old(State())
    {
      dropdownOpen := false;
    }

    /** A click on an option: switch to its theme, then close the dropdown. */
    method SelectOption(k: nat)
      requires k < |options|
      modifies this
      ensures State() == Switch(old(State()), options[k], options)
      ensures !dropdownOpen
    {
      SwitchTheme(options[k]);
      dropdownOpen := false;
    }
  }
}
