/**
 * The theme provider: a dark-mode flag, a flag for following the operating system's colour
 * scheme, and the two `localStorage` keys that remember them. The system's preference is a
 * parameter of the operations that read it.
 */
module ThemeContext {

  /** `localStorage`, as far as the theme uses it. */
  type Storage = map<string, string>

  const ThemeKey: string := "theme"
  const UseSystemKey: string := "useSystemTheme"

  /** `localStorage.getItem(key) === value` (a missing key reads as `null`). */
  predicate Stored(storage: Storage, key: string, value: string) {
    key in storage && storage[key] == value
  }

  /** The text stored under `theme` for a mode. */
  function ThemeName(dark: bool): string {
    if dark then "dark" else "light"
  }

  /** `Boolean.prototype.toString`. */
  function BoolText(b: bool): string {
    if b then "true" else "false"
  }

  /** The provider's state. */
  datatype Theme = Theme(isDarkMode: bool, useSystemTheme: bool, storage: Storage)

  /** The state after mount: both flags start false, then a saved `useSystemTheme` of `true`
    * turns system mode on and takes the system's preference, else a saved theme `dark` turns
    * dark mode on. Nothing is written. */
  function Mounted(storage: Storage, systemDark: bool): (t: Theme)
    ensures t.storage == storage
    ensures t.useSystemTheme <==> Stored(storage, UseSystemKey, "true")
    ensures t.isDarkMode <==> if t.useSystemTheme then systemDark else Stored(storage, ThemeKey, "dark")
  {
    if Stored(storage, UseSystemKey, "true") then Theme(systemDark, true, storage)
    else if Stored(storage, ThemeKey, "dark") then Theme(true, false, storage)
    else Theme(false, false, storage)
  }

  /** The system's colour scheme changed to `systemDark`; heard only while system mode is on. */
  function SystemChanged(t: Theme, systemDark: bool): Theme {
    if t.useSystemTheme then t.(isDarkMode := systemDark) else t
  }

  /** `toggleTheme`: ignored in system mode, else flips dark mode and stores it. */
  function ThemeToggled(t: Theme): Theme {
    if t.useSystemTheme then t
    else
      var dark := !t.isDarkMode;
      Theme(dark, false, t.storage[ThemeKey := ThemeName(dark)])
  }

  /** `toggleUseSystemTheme`: flips system mode and stores it; turning it on takes the system's
    * preference, turning it off goes back to the stored theme. */
  function SystemModeToggled(t: Theme, systemDark: bool): Theme {
    var useSystem := !t.useSystemTheme;
    var storage := t.storage[UseSystemKey := BoolText(useSystem)];
    if useSystem then Theme(systemDark, true, storage)
    else Theme(Stored(storage, ThemeKey, "dark"), false, storage)
  }

  /** Storage agrees with the flags: the system-mode flag is what is stored, and outside system
    * mode dark mode is what is stored as the theme. */
  predicate Synced(t: Theme) {
    && (t.useSystemTheme <==> Stored(t.storage, UseSystemKey, "true"))
    && (!t.useSystemTheme ==> (t.isDarkMode <==> Stored(t.storage, ThemeKey, "dark")))
  }

  /** Mounting leaves the state in step with storage, whatever storage held. */
  lemma MountedIsSynced(storage: Storage, systemDark: bool)
    ensures Synced(Mounted(storage, systemDark))
  {
  }

  /** Every operation keeps the state in step with storage. */
  lemma OperationsKeepSynced(t: Theme, systemDark: bool)
    requires Synced(t)
    ensures Synced(SystemChanged(t, systemDark))
    ensures Synced(ThemeToggled(t))
    ensures Synced(SystemModeToggled(t, systemDark))
  {
  }

  /** In system mode the manual toggle does nothing; outside it system changes do nothing. */
  lemma ModesAreExclusive(t: Theme, systemDark: bool)
    ensures t.useSystemTheme ==> ThemeToggled(t) == t
    ensures !t.useSystemTheme ==> SystemChanged(t, systemDark) == t
    ensures t.useSystemTheme ==> SystemChanged(t, systemDark).isDarkMode == systemDark
  {
  }

  /** Outside system mode the manual toggle flips dark mode and stores the new mode. */
  lemma ToggleThemeFlips(t: Theme)
    requires !t.useSystemTheme
    ensures ThemeToggled(t).isDarkMode == !t.isDarkMode
    ensures Stored(ThemeToggled(t).storage, ThemeKey, ThemeName(!t.isDarkMode))
  {
  }

  /** Toggling the theme twice restores both flags; in a synced state whose stored theme is
    * `dark` or `light` it restores the whole state. */
  lemma {:induction false} ToggleThemeTwice(t: Theme)
    ensures ThemeToggled(ThemeToggled(t)).isDarkMode == t.isDarkMode
    ensures ThemeToggled(ThemeToggled(t)).useSystemTheme == t.useSystemTheme
    ensures Synced(t) && Stored(t.storage, ThemeKey, ThemeName(t.isDarkMode)) ==> ThemeToggled(ThemeToggled(t)) == t
  {
    if !t.useSystemTheme {
      var once := t.storage[ThemeKey := ThemeName(!t.isDarkMode)];
      assert once[ThemeKey := ThemeName(t.isDarkMode)] == t.storage[ThemeKey := ThemeName(t.isDarkMode)];
      if Stored(t.storage, ThemeKey, ThemeName(t.isDarkMode)) {
        assert t.storage[ThemeKey := ThemeName(t.isDarkMode)] == t.storage;
      }
    }
  }

  /** Turning system mode on and off again, with storage in step, gives back the manual mode. */
  lemma {:induction false} SystemModeRoundTrip(t: Theme, systemDark: bool, systemDark': bool)
    requires Synced(t) && !t.useSystemTheme
    ensures SystemModeToggled(SystemModeToggled(t, systemDark), systemDark').isDarkMode == t.isDarkMode
    ensures !SystemModeToggled(SystemModeToggled(t, systemDark), systemDark').useSystemTheme
  {
    var on := SystemModeToggled(t, systemDark);
    assert Stored(on.storage, ThemeKey, "dark") == Stored(t.storage, ThemeKey, "dark");
  }

  /** Turning system mode on takes the system's preference and stores `true`; turning it off
    * takes the stored theme and stores `false`. */
  lemma ToggleUseSystemStores(t: Theme, systemDark: bool)
    ensures var u := SystemModeToggled(t, systemDark);
      && u.useSystemTheme == !t.useSystemTheme
      && Stored(u.storage, UseSystemKey, BoolText(u.useSystemTheme))
      && (u.useSystemTheme ==> u.isDarkMode == systemDark)
      && (!u.useSystemTheme ==> (u.isDarkMode <==> Stored(t.storage, ThemeKey, "dark")))
  {
  }

  /** The theme provider's React state and the browser's `localStorage`. */
  class ThemeProvider {
    var isDarkMode: bool
    var useSystemTheme: bool
    var storage: Storage

    function State(): Theme
      reads this
    {
      Theme(isDarkMode, useSystemTheme, storage)
    }

    /** Mounting with `saved` in `localStorage` while the system prefers `systemDark`. */
    constructor (saved: Storage, systemDark: bool)
      ensures State() == Mounted(saved, systemDark) && Synced(State())
    {
      isDarkMode := false;
      useSystemTheme := false;
      storage := saved;
      if UseSystemKey in saved && saved[UseSystemKey] == "true" {
        useSystemTheme := true;
        isDarkMode := systemDark;
      } else if ThemeKey in saved && saved[ThemeKey] == "dark" {
        isDarkMode := true;
      }
    }

    /** The media query's change event. */
    method OnSystemChange(systemDark: bool)
      modifies this
      ensures State() == SystemChanged(old(State()), systemDark)
      ensures old(Synced(State())) ==> Synced(State())
    {
      if Synced(State()) {
        OperationsKeepSynced(State(), systemDark);
      }
      if useSystemTheme {
        isDarkMode := systemDark;
      }
    }

    /** `toggleTheme`. */
    method ToggleTheme()
      modifies this
      ensures State() == ThemeToggled(old(State()))
      ensures old(Synced(State())) ==> Synced(State())
    {
      if Synced(State()) {
        OperationsKeepSynced(State(), false);
      }
      if useSystemTheme {
        return;
      }
      var newTheme := !isDarkMode;
      isDarkMode := newTheme;
      storage := storage[ThemeKey := ThemeName(newTheme)];
    }

    /** `toggleUseSystemTheme`, with the system preferring `systemDark`. */
    method ToggleUseSystemTheme(systemDark: bool)
      modifies this
      ensures State() == SystemModeToggled(old(State()), systemDark)
      ensures old(Synced(State())) ==> Synced(State())
    {
      if Synced(State()) {
        OperationsKeepSynced(State(), systemDark);
      }
      var newUseSystemTheme := !useSystemTheme;
      useSystemTheme := newUseSystemTheme;
      storage := storage[UseSystemKey := BoolText(newUseSystemTheme)];
      if newUseSystemTheme {
        isDarkMode := systemDark;
      } else {
        isDarkMode := ThemeKey in storage && storage[ThemeKey] == "dark";
      }
    }
  }
}
