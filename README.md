# MaxFirewall, modelled in Dafny

MaxFirewall is an Android firewall that blocks apps' network access per
transport (Wi-Fi and mobile data) through a local VPN. This project models
its decision logic and proves properties of it:

- **the rule and settings store** (`FirewallPreferences`). Two string-keyed
  stores: rules under `"<package>_wifi"` / `"<package>_data"`, and settings
  (master switch, sort option, reboot reminder, theme, filter-chip states).
  It covers:
  - rule keys;
  - setting and reading a rule;
  - `copySettings`;
  - the blocked-package set the VPN reads, derived by parsing keys;
  - export to a JSON document, and import from one.
- **the firewall screen** (`MainActivity`) without its widgets:
  - the filter-chip transition rule and the saving of chip states;
  - the filter-and-sort pipeline that computes the displayed list;
  - the Wi-Fi/data toggle, applied to one app or to the whole selection;
  - selection mode;
  - the master switch;
  - the requests sent to the VPN service (START and STOP intents), kept as
    an ordered trace.
- **the theme codec** (`ThemeMode.fromStorage`).

Modules, in dependency order:

- `KotlinStd` (`kotlin_std.dfy`): the Kotlin library functions the core relies on: `substringBeforeLast`, `endsWith`, `lowercase`, `contains(ignoreCase)`, `isBlank`, string comparison.
- `ThemeModes` (`theme_mode.dfy`): the theme enum and its codec.
- `PrefMaps` (`pref_maps.dfy`):
  - the stores as `map<string, Value>`, with `Value = B(bool) | S(string) | Other`;
  - the keys and the typed lookups of the SharedPreferences API;
  - the blocked-package derivation.
- `SettingsJson` (`settings_json.dfy`): the export document as an abstract JSON value, plus export and import as functions.
- `Preferences` (`firewall_preferences.dfy`): class `FirewallPreferences` with the two stores as fields. Its methods are proved against the `PrefMaps` and `SettingsJson` functions.
- `FilterChips` (`filter_chips.dfy`): the chip transition rule.
- `AppList` (`app_list.dfy`): the app record and the filter/sort pipeline. The sort is an insertion sort of list positions, proved sorted and a permutation.
- `MainScreen` (`main_activity.dfy`): class `MainActivity`. It holds:
  - the full app list;
  - the displayed list, as positions into the full list (the screen's list shares its records with the full list);
  - the chip selection, the search query, the sort option and selection mode;
  - the VPN request trace.

  Its invariant `Valid` keeps five facts: the rule store holds only booleans; the settings the screen reads (master switch, sort option, the five chip states) are booleans or absent; package names are distinct; every record's Wi-Fi and data flags agree with the rule store; and every displayed position is a position of the full list.

Behaviour the model keeps exactly as the code has it:

- `importAllSettings` is not transactional. The rule store is cleared, rewritten and committed before the `"defaults"` section is looked at. A malformed `"defaults"` entry therefore makes the import report failure with the rules already replaced (`SettingsJson.ImportNotTransactional`).
- `getBlockedPackagesForNetwork` parses keys with Kotlin's `substringBeforeLast('_')`. On a key without `'_'` this returns the whole key, so a true entry under the bare key `"wifi"` contributes the package `"wifi"`. The model keeps this (`KotlinStd.SubstringBeforeLast`, `PrefMaps.BlockedPackages`). For stores that hold only rule keys, `PrefMaps.BlockedPackagesExact` shows the set is exactly the blocked packages.
- `JSONObject.getBoolean` also accepts the strings `"true"` and `"false"` in any case, so import accepts them in the rule section (`SettingsJson.JsonToBoolean`).
- `getPrefs` ignores the mode, so `copySettings(from, to)` copies the rule store onto itself: it drops every non-boolean entry and keeps the rest.

## Model

| member | source | states |
|---|---|---|
| ThemeModes.FirstWithStorageValue | app/src/main/java/cu/maxwell/maxfirewall/ThemeMode.kt:12 | the first entry whose storage value equals the argument, or none when no entry has it |
| ThemeModes.FromStorage | app/src/main/java/cu/maxwell/maxfirewall/ThemeMode.kt:11-13 | a stored "system", "light" or "dark" decodes to that mode; anything else, and a missing value, decodes to SYSTEM |
| ThemeModes.EntriesComplete | app/src/main/java/cu/maxwell/maxfirewall/ThemeMode.kt:5-8 | the entries list holds every mode |
| ThemeModes.StorageValueInjective | app/src/main/java/cu/maxwell/maxfirewall/ThemeMode.kt:6-8 | distinct modes have distinct storage values |
| ThemeModes.NightModeInjective | app/src/main/java/cu/maxwell/maxfirewall/ThemeMode.kt:6-8 | distinct modes have distinct night-mode constants |
| ThemeModes.FromStorageRoundTrip | app/src/main/java/cu/maxwell/maxfirewall/ThemeMode.kt:6-13 | decoding a mode's storage value gives the mode back |
| ThemeModes.FromStorageFallback | app/src/main/java/cu/maxwell/maxfirewall/ThemeMode.kt:12 | any string other than the three storage values decodes to SYSTEM |
| ThemeModes.FromStorageNull | app/src/main/java/cu/maxwell/maxfirewall/ThemeMode.kt:11-12 | a missing value decodes to SYSTEM |
| KotlinStd.LastIndexOf | app/src/main/java/cu/maxwell/maxfirewall/FirewallPreferences.kt:138 | -1 exactly when the character does not occur, else an index holding it with no later occurrence |
| KotlinStd.SubstringBeforeLast | app/src/main/java/cu/maxwell/maxfirewall/FirewallPreferences.kt:138 | the whole string when the delimiter is missing, else the prefix ending just before the delimiter's last occurrence |
| KotlinStd.BeforeLastOfJoin | app/src/main/java/cu/maxwell/maxfirewall/FirewallPreferences.kt:24-26 | the part before the last '_' of p + "_" + t is p when t has no '_' |
| KotlinStd.Lowercase | app/src/main/java/cu/maxwell/maxfirewall/MainActivity.kt:565-573 | same length, each character lowered (ASCII letters only) |
| KotlinStd.ContainsFrom | app/src/main/java/cu/maxwell/maxfirewall/MainActivity.kt:536 | true exactly when the query occurs, ignoring case, at some position at or after the start |
| KotlinStd.ContainsIgnoreCase | app/src/main/java/cu/maxwell/maxfirewall/MainActivity.kt:536 | true exactly when the query occurs at some position of the name, ignoring case |
| KotlinStd.LexLeTotal | app/src/main/java/cu/maxwell/maxfirewall/MainActivity.kt:565-573 | the name order used by the sort is total |
| KotlinStd.LexLeTransitive | app/src/main/java/cu/maxwell/maxfirewall/MainActivity.kt:565-573 | the name order used by the sort is transitive |
| KotlinStd.LexLeAntisymmetric | app/src/main/java/cu/maxwell/maxfirewall/MainActivity.kt:565-573 | the name order used by the sort is antisymmetric |
| PrefMaps.GetKeyInjective | app/src/main/java/cu/maxwell/maxfirewall/FirewallPreferences.kt:24-26 | for the transports "wifi" and "data", equal keys mean the same package and the same transport |
| PrefMaps.ParseKey | app/src/main/java/cu/maxwell/maxfirewall/FirewallPreferences.kt:137-138 | a rule key ends with its transport, and the part before its last '_' is the package name |
| PrefMaps.GetBoolean | app/src/main/java/cu/maxwell/maxfirewall/FirewallPreferences.kt:35 | the stored boolean when the key is present, the default when it is absent |
| PrefMaps.GetString | app/src/main/java/cu/maxwell/maxfirewall/FirewallPreferences.kt:101 | the stored string when the key is present, the default when it is absent |
| PrefMaps.IsBlocked | app/src/main/java/cu/maxwell/maxfirewall/FirewallPreferences.kt:34-46 | true exactly when the rule key holds true; a key never written reads false |
| PrefMaps.SetThenIsBlocked | app/src/main/java/cu/maxwell/maxfirewall/FirewallPreferences.kt:30-46 | after writing b the rule reads b, and writing the same value twice is the same as once |
| PrefMaps.SetLeavesOtherRules | app/src/main/java/cu/maxwell/maxfirewall/FirewallPreferences.kt:30-46 | writing one rule changes no other package's or transport's rule |
| PrefMaps.BoolEntries | app/src/main/java/cu/maxwell/maxfirewall/FirewallPreferences.kt:50-62 | exactly the boolean entries of the source store, with their values |
| PrefMaps.BlockedPackages | app/src/main/java/cu/maxwell/maxfirewall/FirewallPreferences.kt:128-146 | a package is in the set exactly when some true boolean entry has a key ending with the transport whose part before the last '_' is that non-empty package |
| PrefMaps.BlockedAmongAdd | app/src/main/java/cu/maxwell/maxfirewall/FirewallPreferences.kt:128-146 | scanning one more key adds its package to the collected set exactly when that key contributes one |
| PrefMaps.BlockedAfterSet | app/src/main/java/cu/maxwell/maxfirewall/FirewallPreferences.kt:128-146 | after blocking a non-empty package on a transport it is in that transport's set |
| PrefMaps.UnblockedKeyDoesNotContribute | app/src/main/java/cu/maxwell/maxfirewall/FirewallPreferences.kt:128-146 | a rule written false contributes nothing: the set is the one without that key |
| PrefMaps.RuleKeyIsGetKey | app/src/main/java/cu/maxwell/maxfirewall/FirewallPreferences.kt:24-26 | a key shaped like a rule key is getKey of some package and transport |
| PrefMaps.RuleKeyOfTransport | app/src/main/java/cu/maxwell/maxfirewall/FirewallPreferences.kt:24-26 | a rule key ending with a transport is rebuilt by getKey from its part before the last '_' and that transport |
| PrefMaps.BlockedPackagesExact | app/src/main/java/cu/maxwell/maxfirewall/FirewallPreferences.kt:128-146 | for a store holding only boolean rule keys, a package is in the set exactly when it is non-empty and blocked on that transport |
| PrefMaps.BoolEntriesKeepBlockedSets | app/src/main/java/cu/maxwell/maxfirewall/FirewallPreferences.kt:50-62 | copying the boolean entries keeps both blocked-package sets |
| PrefMaps.ThemeModeIn | app/src/main/java/cu/maxwell/maxfirewall/FirewallPreferences.kt:100-103 | a missing theme key reads SYSTEM; a present key reads its stored string decoded by `fromStorage`, so a string naming no mode reads SYSTEM |
| PrefMaps.ThemeModeStored | app/src/main/java/cu/maxwell/maxfirewall/FirewallPreferences.kt:96-103 | the theme written is the theme read back |
| PrefMaps.SelectedFiltersIn | app/src/main/java/cu/maxwell/maxfirewall/FirewallPreferences.kt:115-124 | a chip id is selected exactly when it is one of the six listed ids and its saved state is true |
| SettingsJson.ExportRules | app/src/main/java/cu/maxwell/maxfirewall/FirewallPreferences.kt:154-157 | the rule section has exactly the store's keys, each value as put into the JSON object |
| SettingsJson.ExportDefaults | app/src/main/java/cu/maxwell/maxfirewall/FirewallPreferences.kt:161-167 | the settings section has exactly the boolean and string entries |
| SettingsJson.ExportDocument | app/src/main/java/cu/maxwell/maxfirewall/FirewallPreferences.kt:150-171 | the document has exactly the keys "vpn_prefs" and "defaults", holding the two sections |
| SettingsJson.JsonToBoolean | app/src/main/java/cu/maxwell/maxfirewall/FirewallPreferences.kt:188 | a JSON boolean reads as itself; a string reads as true exactly when it is "true" ignoring case and as false exactly when it is "false" ignoring case; any other value fails |
| SettingsJson.RulesFromJson | app/src/main/java/cu/maxwell/maxfirewall/FirewallPreferences.kt:185-190 | succeeds exactly when every field reads as a boolean, and then holds exactly those keys with those booleans |
| SettingsJson.DefaultsFromJson | app/src/main/java/cu/maxwell/maxfirewall/FirewallPreferences.kt:194-201 | exactly the boolean and string fields of the section, converted |
| SettingsJson.ImportReplacesRules | app/src/main/java/cu/maxwell/maxfirewall/FirewallPreferences.kt:185-190 | after a successful import the rule store is exactly the document's rule section: no earlier key survives |
| SettingsJson.ImportReplacesDefaultsIfPresent | app/src/main/java/cu/maxwell/maxfirewall/FirewallPreferences.kt:192-202 | a successful import rewrites the settings from "defaults" when present and leaves them alone when absent |
| SettingsJson.ImportRejectsBadRules | app/src/main/java/cu/maxwell/maxfirewall/FirewallPreferences.kt:185-190 | a missing, non-object or non-boolean rule section fails the import and changes neither store |
| SettingsJson.ImportNotTransactional | app/src/main/java/cu/maxwell/maxfirewall/FirewallPreferences.kt:190-207 | a "defaults" entry that is not an object fails the import after the rule store has already been replaced |
| SettingsJson.ExportImportRoundTrip | app/src/main/java/cu/maxwell/maxfirewall/FirewallPreferences.kt:150-209 | importing an export restores the rule store and the boolean and string settings, whatever the stores held in between, when every rule is a boolean |
| SettingsJson.ExportImportRestoresState | app/src/main/java/cu/maxwell/maxfirewall/FirewallPreferences.kt:150-209 | when every setting is a boolean or a string too, importing an export restores both stores exactly |
| Preferences.FirewallPreferences.constructor | app/src/main/java/cu/maxwell/maxfirewall/FirewallPreferences.kt:8-14 | the two stores as given |
| Preferences.FirewallPreferences.SetWifiBlocked | app/src/main/java/cu/maxwell/maxfirewall/FirewallPreferences.kt:30-32 | the rule store changes only at "<pkg>_wifi", which holds the new flag |
| Preferences.FirewallPreferences.IsWifiBlocked | app/src/main/java/cu/maxwell/maxfirewall/FirewallPreferences.kt:34-36 | true exactly when "<pkg>_wifi" holds true |
| Preferences.FirewallPreferences.SetDataBlocked | app/src/main/java/cu/maxwell/maxfirewall/FirewallPreferences.kt:40-42 | the rule store changes only at "<pkg>_data", which holds the new flag |
| Preferences.FirewallPreferences.IsDataBlocked | app/src/main/java/cu/maxwell/maxfirewall/FirewallPreferences.kt:44-46 | true exactly when "<pkg>_data" holds true |
| Preferences.FirewallPreferences.CopySettings | app/src/main/java/cu/maxwell/maxfirewall/FirewallPreferences.kt:50-62 | the rule store becomes exactly the boolean entries it held (both modes name the same store) |
| Preferences.FirewallPreferences.SetFirewallEnabled | app/src/main/java/cu/maxwell/maxfirewall/FirewallPreferences.kt:66-68 | only the enabled flag changes |
| Preferences.FirewallPreferences.IsFirewallEnabled | app/src/main/java/cu/maxwell/maxfirewall/FirewallPreferences.kt:70-72 | true exactly when the flag is stored true |
| Preferences.FirewallPreferences.SetSortBlockedFirst | app/src/main/java/cu/maxwell/maxfirewall/FirewallPreferences.kt:76-78 | only the sort flag changes |
| Preferences.FirewallPreferences.IsSortBlockedFirst | app/src/main/java/cu/maxwell/maxfirewall/FirewallPreferences.kt:80-82 | true exactly when the flag is stored true |
| Preferences.FirewallPreferences.SetRebootReminder | app/src/main/java/cu/maxwell/maxfirewall/FirewallPreferences.kt:86-88 | only the reminder flag changes |
| Preferences.FirewallPreferences.IsRebootReminderEnabled | app/src/main/java/cu/maxwell/maxfirewall/FirewallPreferences.kt:90-92 | true exactly when the flag is stored true |
| Preferences.FirewallPreferences.SetThemeMode | app/src/main/java/cu/maxwell/maxfirewall/FirewallPreferences.kt:96-98 | only the theme key changes, to the mode's storage value, and the theme then reads back as the mode |
| Preferences.FirewallPreferences.GetThemeMode | app/src/main/java/cu/maxwell/maxfirewall/FirewallPreferences.kt:100-103 | SYSTEM when nothing is stored; a stored string decoded by `fromStorage`: the stored mode when it is a storage value, SYSTEM when it names no mode |
| Preferences.FirewallPreferences.SetFilterChipState | app/src/main/java/cu/maxwell/maxfirewall/FirewallPreferences.kt:107-109 | only "filter_chip_<id>" changes |
| Preferences.FirewallPreferences.GetFilterChipState | app/src/main/java/cu/maxwell/maxfirewall/FirewallPreferences.kt:111-113 | the saved state when present, the caller's default otherwise |
| Preferences.FirewallPreferences.GetSelectedFilters | app/src/main/java/cu/maxwell/maxfirewall/FirewallPreferences.kt:115-124 | the ids among the six listed whose saved state is true |
| Preferences.FirewallPreferences.GetBlockedPackagesForNetwork | app/src/main/java/cu/maxwell/maxfirewall/FirewallPreferences.kt:128-146 | the blocked-package set of the store for that transport |
| Preferences.FirewallPreferences.ExportAllSettings | app/src/main/java/cu/maxwell/maxfirewall/FirewallPreferences.kt:150-171 | the export document of the two stores |
| Preferences.FirewallPreferences.ImportAllSettings | app/src/main/java/cu/maxwell/maxfirewall/FirewallPreferences.kt:181-209 | the result and both stores are those of the import rule, including the non-transactional failure |
| Preferences.ReadRules | app/src/main/java/cu/maxwell/maxfirewall/FirewallPreferences.kt:186-189 | the rewritten rule store, or none when a field does not read as a boolean |
| Preferences.ReadDefaults | app/src/main/java/cu/maxwell/maxfirewall/FirewallPreferences.kt:194-200 | the rewritten settings store |
| FilterChips.Transition | app/src/main/java/cu/maxwell/maxfirewall/MainActivity.kt:262-341 | selecting a type or status chip makes it the only one of its group; selecting "all" keeps the status chips saved on; deselecting "all" leaves {user}; deselecting "user"/"system" falls back to "all" when no type chip is left; deselecting a status chip only removes it |
| FilterChips.TransitionKeepsConsistent | app/src/main/java/cu/maxwell/maxfirewall/MainActivity.kt:262-346 | from exactly one type chip and at most one status chip, with saved status states mirroring the selection, every transition keeps exactly one type chip and at most one status chip |
| AppList.ShownIndices | app/src/main/java/cu/maxwell/maxfirewall/MainActivity.kt:530-563 | the positions, in list order, of exactly the apps passing the search, type and status filters |
| AppList.InOrderTotal | app/src/main/java/cu/maxwell/maxfirewall/MainActivity.kt:565-573 | the comparator orders any two apps |
| AppList.InOrderTransitive | app/src/main/java/cu/maxwell/maxfirewall/MainActivity.kt:565-573 | the comparator is transitive |
| AppList.Insert | app/src/main/java/cu/maxwell/maxfirewall/MainActivity.kt:565-573 | the result holds the list's elements plus the inserted one |
| AppList.InsertSorted | app/src/main/java/cu/maxwell/maxfirewall/MainActivity.kt:565-573 | inserting into a sorted list keeps it sorted |
| AppList.SortIndices | app/src/main/java/cu/maxwell/maxfirewall/MainActivity.kt:565-573 | a sorted permutation of its argument |
| AppList.VisibleApps | app/src/main/java/cu/maxwell/maxfirewall/MainActivity.kt:529-573 | the displayed list holds positions of the full list |
| AppList.VisibleAppsSpec | app/src/main/java/cu/maxwell/maxfirewall/MainActivity.kt:529-573 | the displayed list is sorted and is a permutation of the filtered positions |
| AppList.VisibleAppsShown | app/src/main/java/cu/maxwell/maxfirewall/MainActivity.kt:529-563 | an app is displayed exactly when it passes the search, type and status filters |
| AppList.VisibleAppsOrder | app/src/main/java/cu/maxwell/maxfirewall/MainActivity.kt:565-573 | by lowercased name; with blocked-first, every app blocked somewhere precedes every unblocked one and each group is by name |
| MainScreen.RecordFor | app/src/main/java/cu/maxwell/maxfirewall/MainActivity.kt:508-517 | the record reads both rules from the store and is not selected |
| MainScreen.LoadAppRecords | app/src/main/java/cu/maxwell/maxfirewall/MainActivity.kt:491-518 | one record per installed package, in order, each reading its two rules from the store |
| MainScreen.LoadedFilters | app/src/main/java/cu/maxwell/maxfirewall/MainActivity.kt:228-241 | a chip is selected exactly when its saved state, defaulting to true for "user" and false otherwise, is true |
| MainScreen.LoadFilterChips | app/src/main/java/cu/maxwell/maxfirewall/MainActivity.kt:230-241 | the loaded selection is the chips whose saved state, defaulting to on for "user" only, is on |
| MainScreen.MirrorGivesSavedStatus | app/src/main/java/cu/maxwell/maxfirewall/MainActivity.kt:268-272 | when the saved states mirror the selection, the saved "allowed" and "blocked" states are their memberships |
| MainScreen.SaveChipStatesLookup | app/src/main/java/cu/maxwell/maxfirewall/MainActivity.kt:343-346 | after the save loop, each saved chip's state is its membership in the selection |
| MainScreen.SavedChipStatesMirror | app/src/main/java/cu/maxwell/maxfirewall/MainActivity.kt:343-346 | after the save loop, all five saved states equal membership in the new selection |
| MainScreen.NewPair | app/src/main/java/cu/maxwell/maxfirewall/MainActivity.kt:580-581 | a transport's flag flips exactly when it is the clicked one |
| MainScreen.SelectedIndices | app/src/main/java/cu/maxwell/maxfirewall/MainActivity.kt:584 | ascending positions of the list |
| MainScreen.SelectedIndicesSpec | app/src/main/java/cu/maxwell/maxfirewall/MainActivity.kt:584 | the positions of exactly the selected apps |
| MainScreen.ToggleTargets | app/src/main/java/cu/maxwell/maxfirewall/MainActivity.kt:583-591 | positions of the list; outside selection mode the clicked app alone |
| MainScreen.ToggleTargetsSelected | app/src/main/java/cu/maxwell/maxfirewall/MainActivity.kt:583-591 | in selection mode exactly the selected apps |
| MainScreen.PutPairsLookup | app/src/main/java/cu/maxwell/maxfirewall/MainActivity.kt:595-597 | every target package holds the new pair in the store; every other package keeps its rules |
| MainScreen.PutPairsKeepsBooleans | app/src/main/java/cu/maxwell/maxfirewall/MainActivity.kt:595-597 | the writes keep every rule a boolean |
| MainScreen.ToggleStoreEffect | app/src/main/java/cu/maxwell/maxfirewall/MainActivity.kt:595-597 | after the writes each package reads the new pair if it is a target's and its old rules otherwise |
| MainScreen.ToggleKeepsMirror | app/src/main/java/cu/maxwell/maxfirewall/MainActivity.kt:595-601 | writing the same pair to the store and to the records keeps every record in agreement with the store |
| MainScreen.SingleToggleFlipsClickedTransport | app/src/main/java/cu/maxwell/maxfirewall/MainActivity.kt:580-601 | outside selection mode the clicked app flips exactly the clicked transport and no other record changes |
| MainScreen.SelectionKeepsMirror | app/src/main/java/cu/maxwell/maxfirewall/MainActivity.kt:647-687 | changing selections only keeps the records in agreement with the store |
| MainScreen.UnselectAll | app/src/main/java/cu/maxwell/maxfirewall/MainActivity.kt:650 | every record is unselected and otherwise unchanged |
| MainScreen.SetSelected | app/src/main/java/cu/maxwell/maxfirewall/MainActivity.kt:680-682 | every record at a displayed position gets the given selection; the others are unchanged |
| MainScreen.MainActivity.constructor | app/src/main/java/cu/maxwell/maxfirewall/MainActivity.kt:104-135 | the cached sort flag, the loaded chip selection, one record per installed package read from the store, nothing selected, no VPN request, and the first display |
| MainScreen.MainActivity.SortAndDisplayApps | app/src/main/java/cu/maxwell/maxfirewall/MainActivity.kt:529-573 | the displayed list is the filtered and sorted list |
| MainScreen.MainActivity.OnFilterChipChanged | app/src/main/java/cu/maxwell/maxfirewall/MainActivity.kt:258-349 | the new selection is the transition rule applied with the saved status states; all five states are saved; a consistent selection stays consistent; the list is redisplayed |
| MainScreen.MainActivity.ApplyChipChange | app/src/main/java/cu/maxwell/maxfirewall/MainActivity.kt:262-341 | the selection becomes the transition rule's result |
| MainScreen.MainActivity.SaveFilterChipStates | app/src/main/java/cu/maxwell/maxfirewall/MainActivity.kt:343-346 | each of the five chips' states is saved under its key, in order |
| MainScreen.MainActivity.StartVpnService | app/src/main/java/cu/maxwell/maxfirewall/MainActivity.kt:438-457 | a START request is sent exactly when consent is held or granted |
| MainScreen.MainActivity.StopVpnService | app/src/main/java/cu/maxwell/maxfirewall/MainActivity.kt:447-449 | a STOP request is sent |
| MainScreen.MainActivity.ForceVpnRestart | app/src/main/java/cu/maxwell/maxfirewall/MainActivity.kt:419-436 | nothing when the firewall is disabled, otherwise STOP followed by START |
| MainScreen.MainActivity.OnMasterToggleChanged | app/src/main/java/cu/maxwell/maxfirewall/MainActivity.kt:403-417 | start when now enabled, stop when now disabled |
| MainScreen.MainActivity.OnMasterToggleClicked | app/src/main/java/cu/maxwell/maxfirewall/MainActivity.kt:175-182 | the stored enabled flag flips, then the service is started or stopped according to its new value |
| MainScreen.MainActivity.OnDestroyActionMode | app/src/main/java/cu/maxwell/maxfirewall/MainActivity.kt:647-653 | selection mode ends, every selection is cleared and the list is redisplayed |
| MainScreen.MainActivity.OnCreateActionMode | app/src/main/java/cu/maxwell/maxfirewall/MainActivity.kt:625-631 | selection mode starts |
| MainScreen.MainActivity.OnItemLongClick | app/src/main/java/cu/maxwell/maxfirewall/MainActivity.kt:156-161 | the app's selection flips, selection mode is on exactly when some app is selected, and on leaving selection mode the list is redisplayed while in it the display is kept |
| MainScreen.MainActivity.OnItemClick | app/src/main/java/cu/maxwell/maxfirewall/MainActivity.kt:151-155 | in selection mode the app's selection flips, selection mode stays on exactly when some app is still selected, and the list is redisplayed when it ends; outside selection mode the records, the mode and the display are unchanged |
| MainScreen.MainActivity.ToggleSelection | app/src/main/java/cu/maxwell/maxfirewall/MainActivity.kt:656-674 | exactly one app's selection flips, and selection mode ends when none is left selected |
| MainScreen.MainActivity.SelectAllApps | app/src/main/java/cu/maxwell/maxfirewall/MainActivity.kt:676-687 | every displayed app is set to not-all-displayed-selected, and no other record changes |
| MainScreen.MainActivity.OnToggleClicked | app/src/main/java/cu/maxwell/maxfirewall/MainActivity.kt:579-622 | one pair for the whole batch, written to the store and to every target's record and to no other; one restart at most, and none when disabled; redisplay when blocked-first or in selection mode; selection mode ends |
| MainScreen.MainActivity.ApplyToggle | app/src/main/java/cu/maxwell/maxfirewall/MainActivity.kt:580-601 | the store and the records after the writes of one click |
| MainScreen.MainActivity.FinishToggle | app/src/main/java/cu/maxwell/maxfirewall/MainActivity.kt:603-621 | one STOP/START pair exactly when the firewall was enabled; redisplay when blocked-first or in selection mode; selection mode ends with every selection cleared |
| MainScreen.MainActivity.WriteToggle | app/src/main/java/cu/maxwell/maxfirewall/MainActivity.kt:595-601 | for each target, the pair is written to the store and into its record |
| MainScreen.MainActivity.OnSortBlockedFirstChanged | app/src/main/java/cu/maxwell/maxfirewall/MainActivity.kt:774-778 | the option is cached and saved and the list redisplayed with it |
| MainScreen.MainActivity.OnQueryTextChange | app/src/main/java/cu/maxwell/maxfirewall/MainActivity.kt:800-810 | the query is kept and the list redisplayed with it |
| AppList.IsBlockedApp | app/src/main/java/cu/maxwell/maxfirewall/MainActivity.kt:553-557 | no contract of its own: an app counts as blocked when it is blocked on Wi-Fi or on mobile data (the status filter and the blocked-first sort key) |
| AppList.MatchesSearch | app/src/main/java/cu/maxwell/maxfirewall/MainActivity.kt:533-539 | no contract of its own: an app passes the search when there is no query, the query is blank, or the app name contains the query ignoring case |
| AppList.MatchesType | app/src/main/java/cu/maxwell/maxfirewall/MainActivity.kt:543-547 | no contract of its own: when "user" is selected only non-system apps pass, and "user" takes priority over "system"; otherwise "system" keeps only system apps; with neither, every app passes |
| AppList.MatchesStatus | app/src/main/java/cu/maxwell/maxfirewall/MainActivity.kt:550-563 | no contract of its own: when "allowed" is selected only apps blocked nowhere pass, and "allowed" takes priority over "blocked"; otherwise "blocked" keeps only blocked apps; with neither, every app passes |
| AppList.Shown | app/src/main/java/cu/maxwell/maxfirewall/MainActivity.kt:529-563 | no contract of its own: an app is displayed when it passes the search, the type filter and the status filter |
| KotlinStd.IsWhitespace | app/src/main/java/cu/maxwell/maxfirewall/MainActivity.kt:534 | no contract of its own: the JVM `Char.isWhitespace` set behind `isNotBlank`: tab to carriage return, U+001C to space, U+00A0, U+1680, U+2000 to U+200A, U+2028, U+2029, U+202F, U+205F and U+3000 (Java's whitespace together with its space separators, so the no-break spaces as well) |
| KotlinStd.CharEqualsIgnoreCase | app/src/main/java/cu/maxwell/maxfirewall/MainActivity.kt:536 | no contract of its own: two characters are equal ignoring case when their ASCII-lowered forms are equal |
| KotlinStd.EqualsIgnoreCase | app/src/main/java/cu/maxwell/maxfirewall/FirewallPreferences.kt:188 | no contract of its own: two strings are equal ignoring case when they have the same length and agree character by character ignoring case (the test `getBoolean` applies to "true" and "false") |
| PrefMaps.ModeKey | app/src/main/java/cu/maxwell/maxfirewall/FirewallMode.kt:6-7 | no contract of its own: the one mode's key is "vpn_prefs", the name of the rule store and of its export section |
| PrefMaps.FilterChipKey | app/src/main/java/cu/maxwell/maxfirewall/FirewallPreferences.kt:107-112 | no contract of its own: a chip's state is stored under "filter_chip_" followed by the chip id (FilterChipKeyInjective: distinct ids give distinct keys) |
| PrefMaps.KeyType | app/src/main/java/cu/maxwell/maxfirewall/FirewallPreferences.kt:131 | Wi-Fi gives the transport "wifi" and mobile data gives "data", and the result is always one of the two transports |
| PrefMaps.Contributes | app/src/main/java/cu/maxwell/maxfirewall/FirewallPreferences.kt:135-139 | no contract of its own: an entry contributes its package when its value is the boolean true, its key ends with the transport, and the part before the last '_' is non-empty |
| SettingsJson.FromJson | app/src/main/java/cu/maxwell/maxfirewall/FirewallPreferences.kt:196-199 | a JSON boolean or string read into the settings store as the same kind of value, which exports back to the same JSON value |
| MainScreen.ClearSelection | app/src/main/java/cu/maxwell/maxfirewall/MainActivity.kt:650 | its contract: the record list keeps its length; by definition every record becomes unselected and is otherwise unchanged |
| ThemeModes.StorageValue | app/src/main/java/cu/maxwell/maxfirewall/ThemeMode.kt:5-8 | each mode's storage value is "system", "light" or "dark" (distinct by StorageValueInjective) |
| ThemeModes.NightMode | app/src/main/java/cu/maxwell/maxfirewall/ThemeMode.kt:5-8 | each mode's night-mode constant is -1, 1 or 2, and -1 (follow system) exactly for SYSTEM |
| KotlinStd.EndsWith | app/src/main/java/cu/maxwell/maxfirewall/FirewallPreferences.kt:137 | no contract of its own: the definition of `endsWith` (the suffix fits and the string's tail equals it), used by BlockedPackages |
| KotlinStd.IsBlank | app/src/main/java/cu/maxwell/maxfirewall/MainActivity.kt:534 | the empty string is blank; a string starting with a non-whitespace character is not |
| KotlinStd.LexLe | app/src/main/java/cu/maxwell/maxfirewall/MainActivity.kt:567-572 | string order: a prefix comes first, and a string after a non-empty one is non-empty with a first character no smaller |
| PrefMaps.GetKey | app/src/main/java/cu/maxwell/maxfirewall/FirewallPreferences.kt:24-26 | the key is one longer than package name and transport together, with '_' right after the package name (ParseKey and GetKeyInjective recover both parts) |
| AppList.InOrder | app/src/main/java/cu/maxwell/maxfirewall/MainActivity.kt:566-572 | with blocked-first sorting a blocked app precedes an unblocked one and never follows it; otherwise apps compare by lowered name |
| SettingsJson.ToJson | app/src/main/java/cu/maxwell/maxfirewall/FirewallPreferences.kt:150-170 | a boolean becomes a JSON boolean that reads back as the same boolean, a string a JSON string, anything else neither |
| SettingsJson.Import | app/src/main/java/cu/maxwell/maxfirewall/FirewallPreferences.kt:181-209 | unparsable text fails and changes nothing; no failure touches the settings store; success needs a parsed document and keeps the settings store when it has no "defaults" section |
| MainScreen.PutPairs | app/src/main/java/cu/maxwell/maxfirewall/MainActivity.kt:594-597 | no contract of its own: the rule store after writing the new pair for each target package in order; PutPairsLookup states the value under every key |
| MainScreen.ApplyPair | app/src/main/java/cu/maxwell/maxfirewall/MainActivity.kt:594-601 | the record list keeps its length; ToggleKeepsMirror shows the records then mirror the rewritten store |
| MainScreen.SaveChipStates | app/src/main/java/cu/maxwell/maxfirewall/MainActivity.kt:343-346 | saving chip states keeps every key the settings store had, and every key that is not one of the saved chips' keys (the master switch, the sort option, the theme and so on) keeps its presence and its value |
| MainScreen.SaveChipStatesKeepsReadable | app/src/main/java/cu/maxwell/maxfirewall/MainActivity.kt:343-346 | saving boolean chip states keeps the settings the screen reads readable |
| MainScreen.ScreenIgnoresOtherSettings | app/src/main/java/cu/maxwell/maxfirewall/FirewallPreferences.kt:192-202 | an entry an import may write under any other settings key (reboot reminder, theme, the "internet" chip) leaves the screen's settings exactly as readable as before |
| KotlinStd.LowerChar | app/src/main/java/cu/maxwell/maxfirewall/MainActivity.kt:569 | an upper-case ASCII letter becomes the lower-case letter 32 code points above it |

## Left out

- The VPN service and tunnel (`FirewallVpnService`) are not part of this model. `startForegroundService` with or without `ACTION_STOP`, and `FirewallVpnService.stopVpn`, appear only as START and STOP entries of the request trace.
- `VpnService.prepare`, the consent activity and `onActivityResult`: reduced to a `consentGranted` parameter (consent already held, or granted with `RESULT_OK`).
- The coroutine launch, `Dispatchers.IO`/`Main` and `delay(300)` in `forceVpnRestart`: the restart is the ordered pair STOP, START, with no timing.
- Android UI: the views, toolbar, menus, toasts, bottom navigation, the chips' checked state on screen, action-mode titles, `notifyItemChanged`, swipe refresh, icons. The `isUpdatingChips` flag only suppresses the listener re-entry caused by setting chips programmatically, and is not modelled. As a consequence the model does not capture one UI quirk: when deselecting "user"/"system" falls back to "all", the status chips are shown unchecked although the selection keeps them.
- `loadApps`: package enumeration is a parameter of the constructor, a list of installed packages with their names, system flag and internet permission. Packages without application info, which the enumeration skips, are not modelled.
- JSON text: parsing (`JSONObject(String)`) is a `parsed: Option<Document>` parameter, with `None` for text that is not a JSON object. Printing (`toString(2)`) is not modelled, and neither is export's `null` result on an exception.
- SharedPreferences durability: `commit()` versus `apply()`, and the separate editor and commit of each setter, are all immediate map updates.
- The typed getters (`getBoolean`, `getString`) throw `ClassCastException` when a key holds a value of another type; the source does not catch this. The model rules it out with `requires` on exactly the keys each member reads, instead of modelling the crash: `BoolOrAbsent` and `StringOrAbsent` on the single getters, `SelectedFiltersReadable` on the six chip keys of `getSelectedFilters`, `ChipStatesReadable` on the five screen chips, and `ScreenSettingsReadable` (those five, the master switch and the sort option) on the screen's constructor. Other settings keys, such as the reboot reminder or the theme, may hold any value.
- KotlinStd.Lowercase: lowers ASCII letters only, not the full Unicode case mapping of `lowercase()`. `CharEqualsIgnoreCase` is limited the same way for `contains(ignoreCase = true)` and `equals(ignoreCase = true)`.
- KotlinStd.LowerChar: maps only 'A'..'Z' to 'a'..'z'; every other character, including non-ASCII capitals, is left as it is.
- KotlinStd.CharEqualsIgnoreCase: folds case through `LowerChar`, so it equates ASCII letters of either case only, not the full Unicode case folding of `equals(ignoreCase = true)`.
- KotlinStd.EqualsIgnoreCase: inherits the ASCII-only folding of `CharEqualsIgnoreCase`; for the strings "true" and "false" that `getBoolean` compares with, the constants are ASCII but a non-ASCII character that Java folds to one of their letters, such as U+017F (long s, upper case 'S') in "falſe", is not matched.
- KotlinStd.ContainsFrom: compares with `CharEqualsIgnoreCase`, so `contains(ignoreCase = true)` is modelled with ASCII-only case folding.
- KotlinStd.ContainsIgnoreCase: is `ContainsFrom` from position 0 and has the same ASCII-only case folding.
- KotlinStd.LexLe: compares characters by code point, whereas `String.compareTo` compares UTF-16 code units; the two orders differ when a supplementary character (above U+FFFF) is compared with a character in U+E000–U+FFFF.
- AppList.SortIndices: the insertion sort is stable, as `sortedWith` is, but the contract does not state stability; it states sortedness and permutation only.
- `ThemeUtils.kt` and `MaxFirewallApp.kt` (thin calls into `AppCompatDelegate` and `DynamicColors`) are not part of this model. The second `MainActivity.java` of the repository (a downloader wrapper around a third-party library) is not part of this model either.
- `FirewallMode` is a one-value enum that `getPrefs` ignores. It is the single-constructor datatype `PrefMaps.FirewallMode`, so the rule store's name `"vpn_prefs"` is a constant.
- The Shizuku stubs and `currentSortFilterMode`, which the sort dialog sets but `sortAndDisplayApps` never reads, are not modelled. So are `showSortDialog`'s radio group and `onResume`. The "internet" chip id is read by `getSelectedFilters` (`PrefMaps.SelectedFilterIds`), but no screen chip has it, so the screen neither loads nor saves it.
- Export and import as screen actions (`exportSettings`/`importSettings` on URIs): only the `FirewallPreferences` operations they call are modelled.
