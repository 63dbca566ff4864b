/** The application shell: the active tab, the dark-mode flag, the palette index
    and the Pomodoro timer state, with every persisted field written back to the
    store whenever it changes. */
module Shell {
  import opened Storage
  import Countdown
  import Theme

  /** The identifiers of the six tab buttons. */
  const Tabs: seq<string> := ["calendar", "todo", "calculator", "postit", "pomodoro", "audio"]

  class App {
    var activeTab: string
    var darkMode: bool
    var currentTheme: nat
    var minutes: nat
    var seconds: nat
    var isActive: bool
    var store: Store

    /** The persisted part of the state. */
    function Current(): Settings
      reads this
    {
      Settings(activeTab, darkMode, minutes, seconds, isActive)
    }

    function Clock(): Countdown.Clock
      reads this
    {
      Countdown.Clock(minutes, seconds, isActive)
    }

    /** The palette index is in range, and reloading the page would restore exactly
        the persisted state: every change has been written back. */
    ghost predicate Valid()
      reads this
    {
      currentTheme < |Theme.Themes| && Load(store) == Ok(Current())
    }

    /** Start-up: each field from its initialiser, the palette index 0, then the
        write effects run once on mount. The initialisers only succeed on a store
        whose saved values parse. */
    constructor (saved: Store)
      requires Load(saved).Ok?
      ensures Valid()
      ensures Current() == Load(saved).value && currentTheme == 0
      ensures store == Save(saved, Current())
    {
      var st := Load(saved).value;
      activeTab := st.activeTab;
      darkMode := st.darkMode;
      currentTheme := 0;
      minutes := st.minutes;
      seconds := st.seconds;
      isActive := st.isActive;
      store := Save(saved, st);
      new;
      LoadAfterSave(saved, st);
    }

    /** The palette in use. */
    function Palette(): (p: Theme.Palette)
      reads this
      requires Valid()
      ensures p in Theme.Themes
    {
      Theme.Themes[currentTheme]
    }

    /** The timer write effect. */
    method PersistTimer()
      requires currentTheme < |Theme.Themes| && Load(store).Ok?
      requires Load(store).value.(minutes := minutes, seconds := seconds, isActive := isActive) == Current()
      modifies this`store
      ensures Valid()
      ensures store == SaveTimer(old(store), minutes, seconds, isActive)
    {
      LoadAfterSaveTimer(store, minutes, seconds, isActive);
      store := SaveTimer(store, minutes, seconds, isActive);
    }

    /** One firing of the one-second interval. It is armed only while the timer
        is active; it then takes one second off, borrowing a minute at :00, or
        stops the timer at 0:00. Any change is written back. */
    method Tick()
      requires Valid()
      modifies this
      ensures Valid()
      ensures Clock() == Countdown.Tick(old(Clock()))
      ensures old(isActive) && old(seconds) > 0 ==>
                seconds == old(seconds) - 1 && minutes == old(minutes) && isActive
      ensures old(isActive) && old(seconds) == 0 && old(minutes) > 0 ==>
                minutes == old(minutes) - 1 && seconds == 59 && isActive
      ensures old(isActive) && old(seconds) == 0 && old(minutes) == 0 ==>
                minutes == 0 && seconds == 0 && !isActive
      ensures !old(isActive) ==> Current() == old(Current()) && store == old(store)
      ensures old(isActive) ==> store == SaveTimer(old(store), minutes, seconds, isActive)
      ensures activeTab == old(activeTab) && darkMode == old(darkMode) && currentTheme == old(currentTheme)
    {
      if isActive {
        if seconds > 0 {
          seconds := seconds - 1;
        } else if minutes > 0 {
          minutes := minutes - 1;
          seconds := 59;
        } else {
          isActive := false;
        }
        PersistTimer();
      }
    }

    /** The moon/sun button: flips dark mode and writes it back. */
    method ToggleDarkMode()
      requires Valid()
      modifies this
      ensures Valid()
      ensures darkMode == !old(darkMode)
      ensures store == SaveDarkMode(old(store), darkMode)
      ensures activeTab == old(activeTab) && currentTheme == old(currentTheme)
      ensures Clock() == old(Clock())
    {
      darkMode := !darkMode;
      LoadAfterSaveDarkMode(store, darkMode);
      store := SaveDarkMode(store, darkMode);
    }

    /** The palette button: moves to the next palette, wrapping round; not persisted. */
    method ChangeTheme()
      requires Valid()
      modifies this
      ensures Valid()
      ensures currentTheme == Theme.NextTheme(old(currentTheme))
      ensures Current() == old(Current()) && store == old(store)
    {
      currentTheme := Theme.NextTheme(currentTheme);
    }

    /** A tab button: selects that tab and writes it back. */
    method SelectTab(tab: string)
      requires Valid() && tab in Tabs
      modifies this
      ensures Valid()
      ensures activeTab == tab
      ensures store == SaveTab(old(store), tab)
      ensures darkMode == old(darkMode) && currentTheme == old(currentTheme)
      ensures Clock() == old(Clock())
    {
      activeTab := tab;
      LoadAfterSaveTab(store, tab);
      store := SaveTab(store, tab);
    }
  }
}
