/** The browser's local storage as the shell uses it: five string-valued keys,
    written whenever the state they hold changes and read once at start-up,
    where a missing or empty value falls back to a default. */
module Storage {
  import opened Wrappers
  import opened Decimal

  type Store = map<string, string>

  const TabKey := "activeTab"
  const DarkModeKey := "darkMode"
  const MinutesKey := "pomodoroMinutes"
  const SecondsKey := "pomodoroSeconds"
  const ActiveKey := "pomodoroIsActive"

  const PersistedKeys: set<string> := {TabKey, DarkModeKey, MinutesKey, SecondsKey, ActiveKey}

  /** Everything the shell keeps across sessions. */
  datatype Settings = Settings(activeTab: string, darkMode: bool, minutes: nat, seconds: nat, isActive: bool)

  const DefaultTab := "calendar"
  const DefaultMinutes: nat := 25
  const DefaultSeconds: nat := 0
  const Defaults := Settings(DefaultTab, false, DefaultMinutes, DefaultSeconds, false)

  /** The outcome of reading one setting back: its value, or the key whose text
      the source's parser would not turn into a value of the expected type. */
  datatype Loaded<T> = Ok(value: T) | Malformed(key: string) {
    predicate IsFailure() {
      Malformed?
    }

    function PropagateFailure<U>(): Loaded<U>
      requires Malformed?
    {
      Malformed(key)
    }

    function Extract(): T
      requires Ok?
    {
      value
    }
  }

  /** `getItem(key)` seen through JavaScript truthiness: an absent key (`null`)
      and the empty string both read as nothing saved. */
  function Saved(store: Store, key: string): (r: Option<string>)
    ensures r.None? <==> key !in store || store[key] == ""
    ensures r.Some? ==> r.value != "" && key in store && r.value == store[key]
  {
    if key in store && store[key] != "" then Some(store[key]) else None
  }

  /** `JSON.stringify` of a boolean: never the empty (falsy) string, so a saved
      `false` is not mistaken for nothing saved. */
  function JsonBool(b: bool): (r: string)
    ensures r != ""
  {
    if b then "true" else "false"
  }

  /** `JSON.parse` on the texts a boolean setting is written as: only the two
      texts `JSON.stringify` produces are accepted. */
  function ParseJsonBool(s: string): (r: Option<bool>)
    ensures r.Some? ==> s == JsonBool(r.value)
  {
    if s == "true" then Some(true) else if s == "false" then Some(false) else None
  }

  /** A written flag parses back to itself. */
  lemma ParseJsonBoolOfJsonBool(b: bool)
    ensures ParseJsonBool(JsonBool(b)) == Some(b)
  {
  }

  /** The active-tab initialiser: any non-empty saved text is taken as it is,
      without checking it names a tab. */
  function LoadTab(store: Store): (r: string)
    ensures r != ""
    ensures TabKey !in store || store[TabKey] == "" ==> r == DefaultTab
    ensures TabKey in store && store[TabKey] != "" ==> r == store[TabKey]
  {
    match Saved(store, TabKey)
    case None => DefaultTab
    case Some(s) => s
  }

  /** The dark-mode and running-flag initialisers: `saved ? JSON.parse(saved) : default`. */
  function LoadBool(store: Store, key: string, default: bool): (r: Loaded<bool>)
    ensures Saved(store, key).None? ==> r == Ok(default)
    ensures r.Malformed? ==> r.key == key && Saved(store, key).Some?
  {
    match Saved(store, key)
    case None => Ok(default)
    case Some(s) =>
      match ParseJsonBool(s)
      case None => Malformed(key)
      case Some(b) => Ok(b)
  }

  /** The minutes and seconds initialisers: `saved ? parseInt(saved) : default`. */
  function LoadNat(store: Store, key: string, default: nat): (r: Loaded<nat>)
    ensures Saved(store, key).None? ==> r == Ok(default)
    ensures r.Malformed? ==> r.key == key && Saved(store, key).Some?
  {
    match Saved(store, key)
    case None => Ok(default)
    case Some(s) =>
      match ParseDecimal(s)
      case None => Malformed(key)
      case Some(n) => Ok(n)
  }

  /** Whether every saved value that is not empty can be read back. */
  predicate Readable(store: Store) {
    (Saved(store, DarkModeKey).Some? ==> ParseJsonBool(store[DarkModeKey]).Some?) &&
    (Saved(store, MinutesKey).Some? ==> ParseDecimal(store[MinutesKey]).Some?) &&
    (Saved(store, SecondsKey).Some? ==> ParseDecimal(store[SecondsKey]).Some?) &&
    (Saved(store, ActiveKey).Some? ==> ParseJsonBool(store[ActiveKey]).Some?)
  }

  /** All the state initialisers of the shell, in source order. */
  function Load(store: Store): (r: Loaded<Settings>)
    ensures r.Ok? <==> Readable(store)
    ensures r.Ok? ==> r.value.activeTab != ""
    ensures r.Ok? && Saved(store, DarkModeKey).None? ==> !r.value.darkMode
    ensures r.Ok? && Saved(store, MinutesKey).None? ==> r.value.minutes == DefaultMinutes
    ensures r.Ok? && Saved(store, SecondsKey).None? ==> r.value.seconds == DefaultSeconds
    ensures r.Ok? && Saved(store, ActiveKey).None? ==> !r.value.isActive
    ensures r.Malformed? ==> r.key in PersistedKeys
  {
    var dark :- LoadBool(store, DarkModeKey, false);
    var minutes :- LoadNat(store, MinutesKey, DefaultMinutes);
    var seconds :- LoadNat(store, SecondsKey, DefaultSeconds);
    var active :- LoadBool(store, ActiveKey, false);
    Ok(Settings(LoadTab(store), dark, minutes, seconds, active))
  }

  /** The active-tab effect: writes only the tab key. */
  function SaveTab(store: Store, tab: string): (r: Store)
    ensures r.Keys == store.Keys + {TabKey} && r[TabKey] == tab
    ensures forall k :: k in store && k != TabKey ==> r[k] == store[k]
  {
    store[TabKey := tab]
  }

  /** The dark-mode effect: writes only the dark-mode key, as JSON. */
  function SaveDarkMode(store: Store, dark: bool): (r: Store)
    ensures r.Keys == store.Keys + {DarkModeKey} && ParseJsonBool(r[DarkModeKey]) == Some(dark)
    ensures forall k :: k in store && k != DarkModeKey ==> r[k] == store[k]
  {
    store[DarkModeKey := JsonBool(dark)]
  }

  /** The timer effect: minutes and seconds as decimal text, the running flag as
      JSON, and no other key touched. */
  function SaveTimer(store: Store, minutes: nat, seconds: nat, active: bool): (r: Store)
    ensures r.Keys == store.Keys + {MinutesKey, SecondsKey, ActiveKey}
    ensures ParseDecimal(r[MinutesKey]) == Some(minutes) && ParseDecimal(r[SecondsKey]) == Some(seconds)
    ensures ParseJsonBool(r[ActiveKey]) == Some(active)
    ensures forall k :: k in store && k !in {MinutesKey, SecondsKey, ActiveKey} ==> r[k] == store[k]
  {
    ParseDecimalOfNatToString(minutes);
    ParseDecimalOfNatToString(seconds);
    store[MinutesKey := NatToString(minutes)][SecondsKey := NatToString(seconds)][ActiveKey := JsonBool(active)]
  }

  /** All three write effects, as they run when the shell mounts. */
  function Save(store: Store, st: Settings): (r: Store)
    ensures PersistedKeys <= r.Keys
    ensures forall k :: k !in PersistedKeys ==> (k in r <==> k in store)
    ensures forall k :: k in store && k !in PersistedKeys ==> r[k] == store[k]
  {
    SaveTimer(SaveDarkMode(SaveTab(store, st.activeTab), st.darkMode), st.minutes, st.seconds, st.isActive)
  }

  /** Reading back what was written gives the same settings, whatever else the
      store holds. A saved 0 is the text "0", which is not empty, so it does not
      fall back to a default. */
  lemma LoadAfterSave(store: Store, st: Settings)
    requires st.activeTab != ""
    ensures Load(Save(store, st)) == Ok(st)
  {
    ParseDecimalOfNatToString(st.minutes);
    ParseDecimalOfNatToString(st.seconds);
  }

  /** The timer effect changes only the timer fields of what a reload would read. */
  lemma LoadAfterSaveTimer(store: Store, minutes: nat, seconds: nat, active: bool)
    requires Load(store).Ok?
    ensures Load(SaveTimer(store, minutes, seconds, active))
         == Ok(Load(store).value.(minutes := minutes, seconds := seconds, isActive := active))
  {
    ParseDecimalOfNatToString(minutes);
    ParseDecimalOfNatToString(seconds);
  }

  /** The active-tab effect changes only the tab of what a reload would read. */
  lemma LoadAfterSaveTab(store: Store, tab: string)
    requires Load(store).Ok? && tab != ""
    ensures Load(SaveTab(store, tab)) == Ok(Load(store).value.(activeTab := tab))
  {
  }

  /** The dark-mode effect changes only the flag of what a reload would read. */
  lemma LoadAfterSaveDarkMode(store: Store, dark: bool)
    requires Load(store).Ok?
    ensures Load(SaveDarkMode(store, dark)) == Ok(Load(store).value.(darkMode := dark))
  {
  }

  /** A first visit, with nothing saved, starts from the defaults. */
  lemma LoadEmptyStore()
    ensures Load(map[]) == Ok(Defaults)
  {
  }
}
