/** The app's theme setting and the string under which it is stored. */
module ThemeModes {
  import opened KotlinStd

  datatype ThemeMode = System | Light | Dark

  /** The value written to and read from the settings store. */
  function StorageValue(m: ThemeMode): (r: string)
    ensures r == "system" || r == "light" || r == "dark"
  {
    match m
    case System => "system"
    case Light => "light"
    case Dark => "dark"
  }

  /** The night-mode constant handed to the platform: follow-system (-1), no (1), yes (2). */
  function NightMode(m: ThemeMode): (r: int)
    ensures r == -1 || r == 1 || r == 2
    ensures r == -1 <==> m == System
  {
    match m
    case System => -1
    case Light => 1
    case Dark => 2
  }

  /** The enum's `entries`, in declaration order. */
  const Entries: seq<ThemeMode> := [System, Light, Dark]

  /** `entries.firstOrNull { it.storageValue == value }` over a list of modes. */
  function FirstWithStorageValue(entries: seq<ThemeMode>, value: Option<string>): (r: Option<ThemeMode>)
    ensures r.Some? ==> r.value in entries && value == Some(StorageValue(r.value))
    ensures r.None? ==> forall m :: m in entries ==> value != Some(StorageValue(m))
  {
    if entries == [] then None
    else if value == Some(StorageValue(entries[0])) then Some(entries[0])
    else FirstWithStorageValue(entries[1..], value)
  }

  /** Decodes a stored value; anything unknown, and a missing value, gives SYSTEM. */
  function FromStorage(value: Option<string>): (r: ThemeMode)
    ensures forall m :: value == Some(StorageValue(m)) ==> r == m
    ensures (forall m :: value != Some(StorageValue(m))) ==> r == System
  {
    var found := FirstWithStorageValue(Entries, value);
    EntriesComplete();
    if found.Some? then found.value else System
  }

  /** `entries` lists every mode. */
  lemma EntriesComplete()
    ensures forall m :: m in Entries
  {
    forall m ensures m in Entries {
      if m == System { assert Entries[0] == m; }
      else if m == Light { assert Entries[1] == m; }
      else { assert Entries[2] == m; }
    }
  }

  lemma StorageValueInjective(a: ThemeMode, b: ThemeMode)
    ensures StorageValue(a) == StorageValue(b) ==> a == b
  {
  }

  lemma NightModeInjective(a: ThemeMode, b: ThemeMode)
    ensures NightMode(a) == NightMode(b) ==> a == b
  {
  }

  lemma FromStorageRoundTrip(m: ThemeMode)
    ensures FromStorage(Some(StorageValue(m))) == m
  {
  }

  lemma FromStorageFallback(v: string)
    requires v != "system" && v != "light" && v != "dark"
    ensures FromStorage(Some(v)) == System
  {
  }

  lemma FromStorageNull()
    ensures FromStorage(None) == System
  {
  }
}
