/** The rule and settings store: a class over two key-value stores, the
    per-mode rule store (`"<pkg>_wifi"` / `"<pkg>_data"` to a boolean) and the
    settings store (booleans and strings). Every mode shares the one rule store.
    Each write commits at once; the store is read back exactly as written. */
module Preferences {
  import opened KotlinStd
  import opened ThemeModes
  import opened PrefMaps
  import opened SettingsJson

  class FirewallPreferences {
    var vpnPrefs: map<string, Value>
    var defaultPrefs: map<string, Value>

    /** Opens the stores with the contents they already hold. */
    constructor (storedRules: map<string, Value>, storedDefaults: map<string, Value>)
      ensures vpnPrefs == storedRules && defaultPrefs == storedDefaults
    {
      vpnPrefs := storedRules;
      defaultPrefs := storedDefaults;
    }

    /** Every rule entry holds a boolean (what the firewall itself ever writes). */
    ghost predicate RulesAreBooleans()
      reads this`vpnPrefs
    {
      forall k :: k in vpnPrefs ==> vpnPrefs[k].B?
    }

    // --- Wi-Fi and data rules ---

    method SetWifiBlocked(mode: FirewallMode, packageName: string, isBlocked: bool)
      modifies this`vpnPrefs
      ensures vpnPrefs == old(vpnPrefs)[GetKey(packageName, WifiType) := B(isBlocked)]
    {
      vpnPrefs := vpnPrefs[GetKey(packageName, WifiType) := B(isBlocked)];
    }

    function IsWifiBlocked(mode: FirewallMode, packageName: string): (r: bool)
      reads this
      requires BoolOrAbsent(vpnPrefs, GetKey(packageName, WifiType))
      ensures r <==> GetKey(packageName, WifiType) in vpnPrefs && vpnPrefs[GetKey(packageName, WifiType)] == B(true)
    {
      IsBlocked(vpnPrefs, packageName, WifiType)
    }

    method SetDataBlocked(mode: FirewallMode, packageName: string, isBlocked: bool)
      modifies this`vpnPrefs
      ensures vpnPrefs == old(vpnPrefs)[GetKey(packageName, DataType) := B(isBlocked)]
    {
      vpnPrefs := vpnPrefs[GetKey(packageName, DataType) := B(isBlocked)];
    }

    function IsDataBlocked(mode: FirewallMode, packageName: string): (r: bool)
      reads this
      requires BoolOrAbsent(vpnPrefs, GetKey(packageName, DataType))
      ensures r <==> GetKey(packageName, DataType) in vpnPrefs && vpnPrefs[GetKey(packageName, DataType)] == B(true)
    {
      IsBlocked(vpnPrefs, packageName, DataType)
    }

    /** `copySettings`: clears the target store and copies the boolean entries
        of the source into it. Both modes name the same store, so the store
        keeps exactly its boolean entries. */
    method CopySettings(from: FirewallMode, to: FirewallMode)
      modifies this`vpnPrefs
      ensures vpnPrefs == BoolEntries(old(vpnPrefs))
    {
      var fromPrefs := vpnPrefs;
      var toEditor: map<string, Value> := map[];
      var pending := fromPrefs.Keys;
      while pending != {}
        invariant pending <= fromPrefs.Keys
        invariant toEditor == map k | k in fromPrefs.Keys - pending && fromPrefs[k].B? :: fromPrefs[k]
        decreases pending
      {
        var key :| key in pending;
        if fromPrefs[key].B? {
          toEditor := toEditor[key := fromPrefs[key]];
        }
        pending := pending - {key};
      }
      vpnPrefs := toEditor;
    }

    // --- Settings ---

    method SetFirewallEnabled(isEnabled: bool)
      modifies this`defaultPrefs
      ensures defaultPrefs == old(defaultPrefs)[FirewallEnabledKey := B(isEnabled)]
    {
      defaultPrefs := defaultPrefs[FirewallEnabledKey := B(isEnabled)];
    }

    function IsFirewallEnabled(): (r: bool)
      reads this
      requires BoolOrAbsent(defaultPrefs, FirewallEnabledKey)
      ensures r <==> FirewallEnabledKey in defaultPrefs && defaultPrefs[FirewallEnabledKey] == B(true)
    {
      GetBoolean(defaultPrefs, FirewallEnabledKey, false)
    }

    method SetSortBlockedFirst(isBlockedFirst: bool)
      modifies this`defaultPrefs
      ensures defaultPrefs == old(defaultPrefs)[SortBlockedFirstKey := B(isBlockedFirst)]
    {
      defaultPrefs := defaultPrefs[SortBlockedFirstKey := B(isBlockedFirst)];
    }

    function IsSortBlockedFirst(): (r: bool)
      reads this
      requires BoolOrAbsent(defaultPrefs, SortBlockedFirstKey)
      ensures r <==> SortBlockedFirstKey in defaultPrefs && defaultPrefs[SortBlockedFirstKey] == B(true)
    {
      GetBoolean(defaultPrefs, SortBlockedFirstKey, false)
    }

    method SetRebootReminder(isEnabled: bool)
      modifies this`defaultPrefs
      ensures defaultPrefs == old(defaultPrefs)[RebootReminderKey := B(isEnabled)]
    {
      defaultPrefs := defaultPrefs[RebootReminderKey := B(isEnabled)];
    }

    function IsRebootReminderEnabled(): (r: bool)
      reads this
      requires BoolOrAbsent(defaultPrefs, RebootReminderKey)
      ensures r <==> RebootReminderKey in defaultPrefs && defaultPrefs[RebootReminderKey] == B(true)
    {
      GetBoolean(defaultPrefs, RebootReminderKey, false)
    }

    method SetThemeMode(themeMode: ThemeMode)
      modifies this`defaultPrefs
      ensures defaultPrefs == old(defaultPrefs)[ThemeModeKey := S(StorageValue(themeMode))]
      ensures GetThemeMode() == themeMode
    {
      defaultPrefs := defaultPrefs[ThemeModeKey := S(StorageValue(themeMode))];
      ThemeModeStored(old(defaultPrefs), themeMode);
    }

    function GetThemeMode(): (r: ThemeMode)
      reads this
      requires StringOrAbsent(defaultPrefs, ThemeModeKey)
      ensures ThemeModeKey !in defaultPrefs ==> r == System
      ensures ThemeModeKey in defaultPrefs ==> r == FromStorage(Some(defaultPrefs[ThemeModeKey].s))
      ensures forall m :: ThemeModeKey in defaultPrefs && defaultPrefs[ThemeModeKey] == S(StorageValue(m)) ==> r == m
      ensures ThemeModeKey in defaultPrefs && (forall m :: defaultPrefs[ThemeModeKey] != S(StorageValue(m))) ==> r == System
    {
      ThemeModeIn(defaultPrefs)
    }

    method SetFilterChipState(chipId: string, isChecked: bool)
      modifies this`defaultPrefs
      ensures defaultPrefs == old(defaultPrefs)[FilterChipKey(chipId) := B(isChecked)]
    {
      defaultPrefs := defaultPrefs[FilterChipKey(chipId) := B(isChecked)];
    }

    function GetFilterChipState(chipId: string, defaultValue: bool): (r: bool)
      reads this
      requires BoolOrAbsent(defaultPrefs, FilterChipKey(chipId))
      ensures FilterChipKey(chipId) !in defaultPrefs ==> r == defaultValue
      ensures FilterChipKey(chipId) in defaultPrefs ==> defaultPrefs[FilterChipKey(chipId)] == B(r)
    {
      GetBoolean(defaultPrefs, FilterChipKey(chipId), defaultValue)
    }

    /** `getSelectedFilters`: the chips, among the six it knows, saved as on. */
    method GetSelectedFilters() returns (filters: set<string>)
      requires SelectedFiltersReadable(defaultPrefs)
      ensures filters == SelectedFiltersIn(defaultPrefs)
    {
      filters := {};
      var chipIds := SelectedFilterIds;
      for i := 0 to |chipIds|
        invariant forall c :: c in filters <==>
          c in chipIds[..i] && FilterChipKey(c) in defaultPrefs && defaultPrefs[FilterChipKey(c)] == B(true)
      {
        assert chipIds[..i + 1] == chipIds[..i] + [chipIds[i]];
        if GetFilterChipState(chipIds[i], false) {
          filters := filters + {chipIds[i]};
        }
      }
      assert chipIds[..|chipIds|] == chipIds;
    }

    // --- Enforcement helper ---

    /** `getBlockedPackagesForNetwork`: scans the rule store for true entries
        whose key ends with the transport and collects the non-empty part of
        each such key before its last '_'. */
    method GetBlockedPackagesForNetwork(mode: FirewallMode, isWifi: bool) returns (blockedPackages: set<string>)
      ensures blockedPackages == BlockedPackages(vpnPrefs, isWifi)
    {
      var prefs := vpnPrefs;
      blockedPackages := {};
      var keyType := if isWifi then WifiType else DataType;
      var pending := prefs.Keys;
      while pending != {}
        invariant pending <= prefs.Keys
        invariant blockedPackages == BlockedAmong(prefs, prefs.Keys - pending, keyType)
        decreases pending
      {
        var key :| key in pending;
        BlockedAmongAdd(prefs, prefs.Keys - pending, key, keyType);
        assert prefs.Keys - (pending - {key}) == (prefs.Keys - pending) + {key};
        var value := prefs[key];
        if value.B? && value.b {
          if EndsWith(key, keyType) {
            var packageName := SubstringBeforeLast(key, '_');
            if packageName != "" {
              blockedPackages := blockedPackages + {packageName};
            }
          }
        }
        pending := pending - {key};
      }
      assert prefs.Keys - {} == prefs.Keys;
    }

    // --- Import / export ---

    /** `exportAllSettings`: every rule entry, and the boolean and string settings. */
    method ExportAllSettings() returns (doc: Document)
      ensures doc == ExportDocument(vpnPrefs, defaultPrefs)
    {
      var vpnJson: map<string, JValue> := map[];
      var pending := vpnPrefs.Keys;
      while pending != {}
        invariant pending <= vpnPrefs.Keys
        invariant vpnJson == map k | k in vpnPrefs.Keys - pending :: ToJson(vpnPrefs[k])
        decreases pending
      {
        var key :| key in pending;
        vpnJson := vpnJson[key := ToJson(vpnPrefs[key])];
        pending := pending - {key};
      }
      var defaultJson: map<string, JValue> := map[];
      pending := defaultPrefs.Keys;
      while pending != {}
        invariant pending <= defaultPrefs.Keys
        invariant defaultJson ==
          map k | k in defaultPrefs.Keys - pending && (defaultPrefs[k].B? || defaultPrefs[k].S?) :: ToJson(defaultPrefs[k])
        decreases pending
      {
        var key :| key in pending;
        match defaultPrefs[key] {
          case B(b) => defaultJson := defaultJson[key := JBool(b)];
          case S(s) => defaultJson := defaultJson[key := JString(s)];
          case Other =>
        }
        pending := pending - {key};
      }
      assert vpnPrefs.Keys - {} == vpnPrefs.Keys && defaultPrefs.Keys - {} == defaultPrefs.Keys;
      doc := map[ModeKey(Vpn) := JObject(vpnJson), DefaultsSection := JObject(defaultJson)];
    }

    /** `importAllSettings`: replaces the rule store by the document's rule
        section, then, when a "defaults" section is present, the settings store
        by its boolean and string fields; reports whether every step succeeded. */
    method ImportAllSettings(parsed: Option<Document>) returns (ok: bool)
      modifies this
      ensures ImportResult(ok, vpnPrefs, defaultPrefs) == Import(parsed, old(vpnPrefs), old(defaultPrefs))
    {
      if parsed.None? { return false; }
      var masterJson := parsed.value;
      if ModeKey(Vpn) !in masterJson || !masterJson[ModeKey(Vpn)].JObject? { return false; }
      var vpnEditor := ReadRules(masterJson[ModeKey(Vpn)].fields);
      if vpnEditor.None? { return false; }
      vpnPrefs := vpnEditor.value;

      if DefaultsSection in masterJson {
        if !masterJson[DefaultsSection].JObject? { return false; }
        defaultPrefs := ReadDefaults(masterJson[DefaultsSection].fields);
      }
      return true;
    }
  }

  /** The editor an import fills from the rule section: each field read with
      `getBoolean`; the first field that is not a boolean aborts the import. */
  method ReadRules(vpnJson: map<string, JValue>) returns (editor: Option<map<string, Value>>)
    ensures editor == RulesFromJson(vpnJson)
  {
    var vpnEditor: map<string, Value> := map[];
    var pending := vpnJson.Keys;
    while pending != {}
      invariant pending <= vpnJson.Keys
      invariant forall k :: k in vpnJson.Keys - pending ==> JsonToBoolean(vpnJson[k]).Some?
      invariant vpnEditor == map k | k in vpnJson.Keys - pending :: B(JsonToBoolean(vpnJson[k]).value)
      decreases pending
    {
      var key :| key in pending;
      var value := JsonToBoolean(vpnJson[key]);
      if value.None? { return None; }
      vpnEditor := vpnEditor[key := B(value.value)];
      pending := pending - {key};
    }
    assert vpnJson.Keys - pending == vpnJson.Keys;
    return Some(vpnEditor);
  }

  /** The editor an import fills from the "defaults" section: booleans and
      strings are written, other values skipped. */
  method ReadDefaults(defaultJson: map<string, JValue>) returns (editor: map<string, Value>)
    ensures editor == DefaultsFromJson(defaultJson)
  {
    editor := map[];
    var pending := defaultJson.Keys;
    while pending != {}
      invariant pending <= defaultJson.Keys
      invariant editor ==
        map k | k in defaultJson.Keys - pending && (defaultJson[k].JBool? || defaultJson[k].JString?) :: FromJson(defaultJson[k])
      decreases pending
    {
      var key :| key in pending;
      match defaultJson[key] {
        case JBool(b) => editor := editor[key := B(b)];
        case JString(s) => editor := editor[key := S(s)];
        case _ =>
      }
      pending := pending - {key};
    }
    assert defaultJson.Keys - pending == defaultJson.Keys;
  }
}
