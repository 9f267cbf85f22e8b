/** The colour theme: the choice at start-up, the user's explicit choices, which are remembered,
    and the automatic switches by time of day and system preference, which are not. */
module Theme {
  const Light: string := "light"
  const Dark: string := "dark"
  const ManualKey: string := "theme-manual"
  const ThemeKey: string := "theme"

  /** `isAfter8PM`, given the local hour. */
  predicate IsAfter8PM(hour: int) {
    hour >= 20
  }

  /** `localStorage.getItem('theme-manual') === 'true'`. */
  predicate HasManual(storage: map<string, string>) {
    ManualKey in storage && storage[ManualKey] == "true"
  }

  /** The stored theme when the preference is manual and one is stored (any non-empty string is
      taken as it is); otherwise dark after 8 PM, else dark when the system prefers it, else
      light. */
  function InitialTheme(storage: map<string, string>, hour: int, systemDark: bool): (t: string)
    ensures HasManual(storage) && ThemeKey in storage && storage[ThemeKey] != "" ==> t == storage[ThemeKey]
    ensures !(HasManual(storage) && ThemeKey in storage && storage[ThemeKey] != "") ==>
      (t == Dark <==> IsAfter8PM(hour) || systemDark) && (t == Light <==> !IsAfter8PM(hour) && !systemDark)
  {
    if HasManual(storage) && ThemeKey in storage && storage[ThemeKey] != "" then storage[ThemeKey]
    else if IsAfter8PM(hour) then Dark
    else if systemDark then Dark
    else Light
  }

  /** Without a remembered choice, the time of day wins over the system preference. */
  lemma EveningIsDark(storage: map<string, string>, hour: int, systemDark: bool)
    requires !HasManual(storage) && IsAfter8PM(hour)
    ensures InitialTheme(storage, hour, systemDark) == Dark
  {
  }

  /** The theme after a toggle: dark becomes light, anything else dark. */
  function Toggled(theme: string): (t: string)
    ensures t == Light || t == Dark
    ensures t == Light <==> theme == Dark
  {
    if theme == Dark then Light else Dark
  }

  /** Toggling twice gives back light or dark. */
  lemma ToggleTwice(theme: string)
    requires theme == Light || theme == Dark
    ensures Toggled(Toggled(theme)) == theme
  {
  }

  /** The theme the automatic checks choose: dark after 8 PM, light before. */
  function TimeTheme(hour: int): (t: string)
    ensures t == Dark <==> IsAfter8PM(hour)
    ensures t == Light <==> !IsAfter8PM(hour)
  {
    if IsAfter8PM(hour) then Dark else Light
  }

  /** The theme provider's state: the theme, the `dark` class on the document root, and the
      browser storage it reads and writes. */
  class ThemeState {
    var theme: string
    var darkClass: bool
    var storage: map<string, string>

    /** The document shows the theme, and a remembered choice is the current theme. */
    ghost predicate Valid()
      reads this
    {
      darkClass == (theme == Dark) &&
      (HasManual(storage) ==> ThemeKey in storage && storage[ThemeKey] == theme)
    }

    /** Start-up: the initial theme, then the theme effect. */
    constructor(storage: map<string, string>, hour: int, systemDark: bool)
      ensures theme == InitialTheme(storage, hour, systemDark)
      ensures this.storage == if HasManual(storage) then storage[ThemeKey := theme] else storage
      ensures Valid()
    {
      var initial := InitialTheme(storage, hour, systemDark);
      theme := initial;
      darkClass := initial == Dark;
      this.storage := if HasManual(storage) then storage[ThemeKey := initial] else storage;
    }

    /** The effect that runs when the theme changes: set the root class, and store the theme
        only when the preference is manual. */
    method ApplyTheme()
      modifies this
      ensures theme == old(theme) && darkClass == (theme == Dark)
      ensures storage == if HasManual(old(storage)) then old(storage)[ThemeKey := theme] else old(storage)
    {
      darkClass := theme == Dark;
      if HasManual(storage) {
        storage := storage[ThemeKey := theme];
      }
    }

    /** `toggleTheme`: flips the theme, marks the preference manual and remembers the theme. */
    method ToggleTheme()
      requires Valid()
      modifies this
      ensures theme == Toggled(old(theme))
      ensures storage == old(storage)[ManualKey := "true"][ThemeKey := theme]
      ensures Valid()
    {
      storage := storage[ManualKey := "true"];
      var newTheme := Toggled(theme);
      storage := storage[ThemeKey := newTheme];
      var changed := newTheme != theme;
      theme := newTheme;
      if changed {
        ApplyTheme();
      }
    }

    /** `setTheme`: sets exactly the given theme, marks the preference manual and remembers it. */
    method SetTheme(newTheme: string)
      requires Valid()
      modifies this
      ensures theme == newTheme
      ensures storage == old(storage)[ManualKey := "true"][ThemeKey := newTheme]
      ensures Valid()
    {
      storage := storage[ManualKey := "true"];
      storage := storage[ThemeKey := newTheme];
      var changed := newTheme != theme;
      theme := newTheme;
      if changed {
        ApplyTheme();
      }
    }

    /** The visibility handler and the once-a-minute check: without a manual preference the
        theme follows the time of day; with one nothing changes. Storage is never touched. */
    method TimeCheck(visible: bool, hour: int)
      requires Valid()
      modifies this
      ensures theme == if visible && !HasManual(old(storage)) then TimeTheme(hour) else old(theme)
      ensures storage == old(storage)
      ensures Valid()
    {
      if visible && !HasManual(storage) {
        var newTheme := TimeTheme(hour);
        var changed := newTheme != theme;
        theme := newTheme;
        if changed {
          ApplyTheme();
        }
      }
    }

    /** The system preference handler: applied only without a manual preference and before
        8 PM. Storage is never touched. */
    method SystemChange(matchesDark: bool, hour: int)
      requires Valid()
      modifies this
      ensures theme == if !HasManual(old(storage)) && !IsAfter8PM(hour) then (if matchesDark then Dark else Light) else old(theme)
      ensures storage == old(storage)
      ensures Valid()
    {
      if !HasManual(storage) && !IsAfter8PM(hour) {
        var newTheme := if matchesDark then Dark else Light;
        var changed := newTheme != theme;
        theme := newTheme;
        if changed {
          ApplyTheme();
        }
      }
    }
  }

  /** Once the user has chosen, the automatic switches no longer move the theme: after a
      toggle, neither the time check nor a system change alters it. */
  method ChoiceSticks(storage: map<string, string>, hour: int, laterHour: int, systemDark: bool)
    returns (chosen: string, afterTimeCheck: string, afterSystemChange: string)
    ensures chosen == afterTimeCheck == afterSystemChange
    ensures chosen == Toggled(InitialTheme(storage, hour, systemDark))
  {
    var state := new ThemeState(storage, hour, systemDark);
    state.ToggleTheme();
    chosen := state.theme;
    state.TimeCheck(true, laterHour);
    afterTimeCheck := state.theme;
    state.SystemChange(!systemDark, laterHour);
    afterSystemChange := state.theme;
  }
}
