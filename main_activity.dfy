/** The decision logic of the firewall screen: which chips are selected,
    which apps are shown, what a click on an app's Wi-Fi or data toggle writes
    to the rule store and to the app records, the selection mode, and the
    requests sent to the VPN service. Those requests are kept as a trace of
    START and STOP intents, in the order they are sent. */
module MainScreen {
  import opened KotlinStd
  import opened PrefMaps
  import opened Preferences
  import opened FilterChips
  import opened AppList

  /** An intent sent to the VPN service. */
  datatype VpnRequest = Start | Stop

  /** An installed package as the package manager reports it. */
  datatype InstalledPackage = InstalledPackage(
    appName: string, packageName: string, isSystemApp: bool, hasInternetPermission: bool)

  predicate DistinctPackages(apps: seq<AppInfo>)
  {
    forall i, j :: 0 <= i < j < |apps| ==> apps[i].packageName != apps[j].packageName
  }

  /** A record agrees with the rule store on both transports. */
  predicate RecordMirrorsStore(a: AppInfo, m: map<string, Value>)
  {
    && a.isWifiBlocked == (GetKey(a.packageName, WifiType) in m && m[GetKey(a.packageName, WifiType)] == B(true))
    && a.isDataBlocked == (GetKey(a.packageName, DataType) in m && m[GetKey(a.packageName, DataType)] == B(true))
  }

  predicate StoreMirrored(apps: seq<AppInfo>, m: map<string, Value>)
  {
    forall j :: 0 <= j < |apps| ==> RecordMirrorsStore(apps[j], m)
  }

  /** The record `loadApps` builds for an installed package: its rules read
      from the store, not selected. */
  function RecordFor(p: InstalledPackage, m: map<string, Value>): (r: AppInfo)
    requires BoolOrAbsent(m, GetKey(p.packageName, WifiType)) && BoolOrAbsent(m, GetKey(p.packageName, DataType))
    ensures RecordMirrorsStore(r, m) && !r.isSelected
    ensures r.packageName == p.packageName && r.appName == p.appName && r.isSystemApp == p.isSystemApp
  {
    AppInfo(p.appName, p.packageName, p.isSystemApp, p.hasInternetPermission,
            IsBlocked(m, p.packageName, WifiType), IsBlocked(m, p.packageName, DataType), false)
  }

  /** The five chip states the screen reads and writes are booleans or absent. */
  predicate ChipStatesReadable(d: map<string, Value>)
  {
    forall c :: c in ChipIds ==> BoolOrAbsent(d, FilterChipKey(c))
  }

  /** Every setting the screen reads holds a boolean or is absent: the
      firewall switch, the sort option and the five chip states. */
  predicate ScreenSettingsReadable(d: map<string, Value>)
  {
    && BoolOrAbsent(d, FirewallEnabledKey)
    && BoolOrAbsent(d, SortBlockedFirstKey)
    && ChipStatesReadable(d)
  }

  /** A setting the screen never reads (the reboot reminder, the theme, the
      "internet" chip, anything else) can hold any value. */
  lemma ScreenIgnoresOtherSettings(d: map<string, Value>, k: string, v: Value)
    requires k != FirewallEnabledKey && k != SortBlockedFirstKey
    requires forall c :: c in ChipIds ==> k != FilterChipKey(c)
    ensures ScreenSettingsReadable(d[k := v]) <==> ScreenSettingsReadable(d)
  {
    forall c | c in ChipIds ensures BoolOrAbsent(d[k := v], FilterChipKey(c)) <==> BoolOrAbsent(d, FilterChipKey(c)) {
      assert k != FilterChipKey(c);
    }
  }

  /** The selection `setupFilterChips` loads: "user" is on unless saved off, every other chip off unless saved on. */
  function LoadedFilters(d: map<string, Value>): (r: set<string>)
    requires ChipStatesReadable(d)
    ensures r <= TypeChips + StatusChips
    ensures forall c :: c in ChipIds ==> (c in r <==> GetBoolean(d, FilterChipKey(c), c == User))
  {
    set c | c in ChipIds && GetBoolean(d, FilterChipKey(c), c == User)
  }

  /** The saved chip states agree with a selection, a chip never saved reading
      as it does when the screen loads. */
  predicate ChipStatesMirror(d: map<string, Value>, selected: set<string>)
  {
    forall c :: c in ChipIds ==>
      && (FilterChipKey(c) in d ==> d[FilterChipKey(c)] == B(c in selected))
      && (FilterChipKey(c) !in d ==> (c in selected <==> c == User))
  }

  /** Mirrored saved states give the status chips' saved states as the
      listener reads them. */
  lemma MirrorGivesSavedStatus(d: map<string, Value>, selected: set<string>)
    requires ChipStatesMirror(d, selected)
    requires BoolOrAbsent(d, FilterChipKey(Allowed)) && BoolOrAbsent(d, FilterChipKey(Blocked))
    ensures GetBoolean(d, FilterChipKey(Allowed), false) == (Allowed in selected)
    ensures GetBoolean(d, FilterChipKey(Blocked), false) == (Blocked in selected)
  {
    assert Allowed in ChipIds && Blocked in ChipIds;
  }

  /** The settings store after the five chip states are saved in turn. */
  function SaveChipStates(d: map<string, Value>, selected: set<string>, ids: seq<string>): (r: map<string, Value>)
    ensures d.Keys <= r.Keys
    ensures forall k :: (forall c :: c in ids ==> k != FilterChipKey(c)) ==> (k in r <==> k in d) && (k in r ==> r[k] == d[k])
    decreases |ids|
  {
    if ids == [] then d
    else
      var c := ids[|ids| - 1];
      SaveChipStates(d, selected, ids[..|ids| - 1])[FilterChipKey(c) := B(c in selected)]
  }

  lemma FilterChipKeyInjective(a: string, b: string)
    ensures FilterChipKey(a) == FilterChipKey(b) ==> a == b
  {
    if FilterChipKey(a) == FilterChipKey(b) {
      assert a == FilterChipKey(a)[12..];
    }
  }

  /** After saving, each saved chip's state is its membership in the selection. */
  lemma {:induction false} SaveChipStatesLookup(d: map<string, Value>, selected: set<string>, ids: seq<string>, c: string)
    requires c in ids
    ensures FilterChipKey(c) in SaveChipStates(d, selected, ids)
    ensures SaveChipStates(d, selected, ids)[FilterChipKey(c)] == B(c in selected)
  {
    var last := ids[|ids| - 1];
    var init := ids[..|ids| - 1];
    assert ids == init + [last];
    FilterChipKeyInjective(c, last);
    if c != last {
      SaveChipStatesLookup(d, selected, init, c);
    }
  }

  /** Saving the chip states keeps every setting the screen reads a boolean. */
  lemma {:induction false} SaveChipStatesKeepsReadable(d: map<string, Value>, selected: set<string>, ids: seq<string>)
    requires ScreenSettingsReadable(d)
    ensures ScreenSettingsReadable(SaveChipStates(d, selected, ids))
  {
    if ids != [] {
      SaveChipStatesKeepsReadable(d, selected, ids[..|ids| - 1]);
    }
  }

  /** Saving all five chips makes the saved states mirror the selection. */
  lemma SavedChipStatesMirror(d: map<string, Value>, selected: set<string>)
    ensures ChipStatesMirror(SaveChipStates(d, selected, ChipIds), selected)
    ensures forall c :: c in ChipIds ==>
      FilterChipKey(c) in SaveChipStates(d, selected, ChipIds) &&
      SaveChipStates(d, selected, ChipIds)[FilterChipKey(c)] == B(c in selected)
  {
    forall c | c in ChipIds
      ensures FilterChipKey(c) in SaveChipStates(d, selected, ChipIds)
      ensures SaveChipStates(d, selected, ChipIds)[FilterChipKey(c)] == B(c in selected)
    {
      SaveChipStatesLookup(d, selected, ChipIds, c);
    }
  }

  /** The (Wi-Fi, data) pair a click gives: the clicked app's pair with only
      the clicked transport flipped. */
  function NewPair(app: AppInfo, toggleType: string): (r: (bool, bool))
    ensures r.0 != app.isWifiBlocked <==> toggleType == WifiType
    ensures r.1 != app.isDataBlocked <==> toggleType == DataType
  {
    (if toggleType == WifiType then !app.isWifiBlocked else app.isWifiBlocked,
     if toggleType == DataType then !app.isDataBlocked else app.isDataBlocked)
  }

  /** The positions below `n` of the selected apps, in list order; what it
      holds is stated by `SelectedIndicesSpec`. */
  function SelectedIndices(apps: seq<AppInfo>, n: nat): (r: seq<nat>)
    requires n <= |apps|
    ensures forall k :: 0 <= k < |r| ==> r[k] < n
    ensures forall k, l :: 0 <= k < l < |r| ==> r[k] < r[l]
  {
    if n == 0 then []
    else SelectedIndices(apps, n - 1) + (if apps[n - 1].isSelected then [n - 1] else [])
  }

  /** Exactly the selected positions below `n`. */
  lemma {:induction false} SelectedIndicesSpec(apps: seq<AppInfo>, n: nat)
    requires n <= |apps|
    ensures var r := SelectedIndices(apps, n);
      && (forall k :: 0 <= k < |r| ==> apps[r[k]].isSelected)
      && (forall i :: 0 <= i < n && apps[i].isSelected ==> i in r)
  {
    if n > 0 {
      SelectedIndicesSpec(apps, n - 1);
      var prev, r := SelectedIndices(apps, n - 1), SelectedIndices(apps, n);
      assert r == prev + (if apps[n - 1].isSelected then [n - 1] else []);
      assert forall k :: 0 <= k < |prev| ==> r[k] == prev[k];
      forall i | 0 <= i < n && apps[i].isSelected ensures i in r {
        if i < n - 1 {
          assert i in prev;
        }
      }
    }
  }

  /** The apps a click applies to: the selected ones in selection mode, else the clicked one. */
  function ToggleTargets(apps: seq<AppInfo>, clicked: nat, inSelectionMode: bool): (r: seq<nat>)
    requires clicked < |apps|
    ensures InRange(apps, r)
    ensures !inSelectionMode ==> r == [clicked]
  {
    var targets := if inSelectionMode then SelectedIndices(apps, |apps|) else [clicked];
    if |targets| == 0 && !inSelectionMode then [clicked] else targets
  }

  /** In selection mode the targets are exactly the selected apps. */
  lemma ToggleTargetsSelected(apps: seq<AppInfo>, clicked: nat)
    requires clicked < |apps|
    ensures forall j :: j in ToggleTargets(apps, clicked, true) <==> 0 <= j < |apps| && apps[j].isSelected
  {
    SelectedIndicesSpec(apps, |apps|);
    var r := ToggleTargets(apps, clicked, true);
    assert r == SelectedIndices(apps, |apps|);
    forall j | j in r ensures 0 <= j < |apps| && apps[j].isSelected {
      var k :| 0 <= k < |r| && r[k] == j;
    }
  }

  function PackagesAt(apps: seq<AppInfo>, targets: seq<nat>): (r: seq<string>)
    requires InRange(apps, targets)
    ensures |r| == |targets|
    ensures forall k :: 0 <= k < |targets| ==> r[k] == apps[targets[k]].packageName
  {
    seq(|targets|, k requires 0 <= k < |targets| => apps[targets[k]].packageName)
  }

  /** The rule store after the pair (w, d) is written for each package in turn. */
  function PutPairs(m: map<string, Value>, packages: seq<string>, w: bool, d: bool): map<string, Value>
    decreases |packages|
  {
    if packages == [] then m
    else
      var p := packages[|packages| - 1];
      PutPairs(m, packages[..|packages| - 1], w, d)[GetKey(p, WifiType) := B(w)][GetKey(p, DataType) := B(d)]
  }

  /** Every target package holds the new pair; every other package keeps its rules. */
  lemma {:induction false} PutPairsLookup(m: map<string, Value>, packages: seq<string>, w: bool, d: bool, q: string, t: string)
    requires IsTransport(t)
    ensures q in packages ==>
      GetKey(q, t) in PutPairs(m, packages, w, d) && PutPairs(m, packages, w, d)[GetKey(q, t)] == B(if t == WifiType then w else d)
    ensures q !in packages ==>
      && (GetKey(q, t) in PutPairs(m, packages, w, d) <==> GetKey(q, t) in m)
      && (GetKey(q, t) in m ==> PutPairs(m, packages, w, d)[GetKey(q, t)] == m[GetKey(q, t)])
  {
    if packages != [] {
      var p := packages[|packages| - 1];
      var init := packages[..|packages| - 1];
      assert packages == init + [p];
      PutPairsLookup(m, init, w, d, q, t);
      GetKeyInjective(p, WifiType, q, t);
      GetKeyInjective(p, DataType, q, t);
    }
  }

  lemma {:induction false} PutPairsKeepsBooleans(m: map<string, Value>, packages: seq<string>, w: bool, d: bool)
    requires forall k :: k in m ==> m[k].B?
    ensures forall k :: k in PutPairs(m, packages, w, d) ==> PutPairs(m, packages, w, d)[k].B?
  {
    if packages != [] {
      PutPairsKeepsBooleans(m, packages[..|packages| - 1], w, d);
    }
  }

  /** The records after the pair (w, d) is written into each target. */
  function ApplyPair(apps: seq<AppInfo>, targets: seq<nat>, w: bool, d: bool): (r: seq<AppInfo>)
    ensures |r| == |apps|
  {
    seq(|apps|, j requires 0 <= j < |apps| =>
      if j in targets then apps[j].(isWifiBlocked := w, isDataBlocked := d) else apps[j])
  }

  function ClearSelection(apps: seq<AppInfo>): (r: seq<AppInfo>)
    ensures |r| == |apps|
  {
    seq(|apps|, j requires 0 <= j < |apps| => apps[j].(isSelected := false))
  }

  /** With distinct package names, a record's package is a target package
      exactly when the record is a target. */
  lemma TargetPackages(apps: seq<AppInfo>, targets: seq<nat>, j: nat)
    requires DistinctPackages(apps) && InRange(apps, targets) && j < |apps|
    ensures apps[j].packageName in PackagesAt(apps, targets) <==> j in targets
  {
    var pkgs := PackagesAt(apps, targets);
    if apps[j].packageName in pkgs {
      var k :| 0 <= k < |pkgs| && pkgs[k] == apps[j].packageName;
      assert apps[targets[k]].packageName == apps[j].packageName;
      assert targets[k] == j;
    }
    if j in targets {
      var k :| 0 <= k < |targets| && targets[k] == j;
      assert pkgs[k] == apps[j].packageName;
    }
  }

  /** A toggle writes the same pair into the store and the records of the
      targets, so records and store stay in agreement. */
  lemma ToggleKeepsMirror(apps: seq<AppInfo>, m: map<string, Value>, targets: seq<nat>, w: bool, d: bool)
    requires DistinctPackages(apps) && InRange(apps, targets) && StoreMirrored(apps, m)
    ensures DistinctPackages(ApplyPair(apps, targets, w, d))
    ensures StoreMirrored(ApplyPair(apps, targets, w, d), PutPairs(m, PackagesAt(apps, targets), w, d))
  {
    var apps', m' := ApplyPair(apps, targets, w, d), PutPairs(m, PackagesAt(apps, targets), w, d);
    assert forall j :: 0 <= j < |apps| ==> apps'[j].packageName == apps[j].packageName;
    forall j | 0 <= j < |apps'| ensures RecordMirrorsStore(apps'[j], m') {
      TargetPackages(apps, targets, j);
      PutPairsLookup(m, PackagesAt(apps, targets), w, d, apps[j].packageName, WifiType);
      PutPairsLookup(m, PackagesAt(apps, targets), w, d, apps[j].packageName, DataType);
    }
  }

  /** After a toggle the store reads, for every package, the new pair when it
      is a target's and its former rule otherwise. */
  lemma ToggleStoreEffect(m: map<string, Value>, packages: seq<string>, w: bool, d: bool, q: string)
    requires forall k :: k in m ==> m[k].B?
    ensures forall k :: k in PutPairs(m, packages, w, d) ==> PutPairs(m, packages, w, d)[k].B?
    ensures IsBlocked(PutPairs(m, packages, w, d), q, WifiType) == if q in packages then w else IsBlocked(m, q, WifiType)
    ensures IsBlocked(PutPairs(m, packages, w, d), q, DataType) == if q in packages then d else IsBlocked(m, q, DataType)
  {
    PutPairsKeepsBooleans(m, packages, w, d);
    PutPairsLookup(m, packages, w, d, q, WifiType);
    PutPairsLookup(m, packages, w, d, q, DataType);
  }

  /** A click outside selection mode flips exactly the clicked transport of
      the clicked app and changes no other record. */
  lemma SingleToggleFlipsClickedTransport(apps: seq<AppInfo>, clicked: nat, toggleType: string)
    requires clicked < |apps| && IsTransport(toggleType)
    ensures var pair := NewPair(apps[clicked], toggleType);
      var r := ApplyPair(apps, ToggleTargets(apps, clicked, false), pair.0, pair.1);
      && |r| == |apps|
      && (r[clicked].isWifiBlocked != apps[clicked].isWifiBlocked <==> toggleType == WifiType)
      && (r[clicked].isDataBlocked != apps[clicked].isDataBlocked <==> toggleType == DataType)
      && (r[clicked].isWifiBlocked != apps[clicked].isWifiBlocked || r[clicked].isDataBlocked != apps[clicked].isDataBlocked)
      && r[clicked].(isWifiBlocked := apps[clicked].isWifiBlocked, isDataBlocked := apps[clicked].isDataBlocked) == apps[clicked]
      && forall j :: 0 <= j < |apps| && j != clicked ==> r[j] == apps[j]
  {
  }

  /** A change of selections only keeps the records in agreement with the store. */
  lemma SelectionKeepsMirror(apps: seq<AppInfo>, apps': seq<AppInfo>, m: map<string, Value>)
    requires DistinctPackages(apps) && StoreMirrored(apps, m)
    requires |apps'| == |apps|
    requires forall j :: 0 <= j < |apps| ==> apps'[j].(isSelected := apps[j].isSelected) == apps[j]
    ensures DistinctPackages(apps') && StoreMirrored(apps', m)
  {
    assert forall j :: 0 <= j < |apps| ==> apps'[j].packageName == apps[j].packageName;
    forall j | 0 <= j < |apps| ensures RecordMirrorsStore(apps'[j], m) {
      assert apps'[j].isWifiBlocked == apps[j].isWifiBlocked && apps'[j].isDataBlocked == apps[j].isDataBlocked;
    }
  }

  /** Clearing the selections of a list without selected apps leaves it as it is. */
  lemma NoneSelectedClearIsIdentity(apps: seq<AppInfo>)
    requires |SelectedIndices(apps, |apps|)| == 0
    ensures ClearSelection(apps) == apps
  {
    SelectedIndicesSpec(apps, |apps|);
    assert forall j :: 0 <= j < |apps| ==> !apps[j].isSelected;
  }

  /** The chip loading of `setupFilterChips`: every chip is read from its
      saved state, "user" defaulting to on and the others to off. */
  method LoadFilterChips(store: FirewallPreferences) returns (filters: set<string>)
    requires ChipStatesReadable(store.defaultPrefs)
    ensures filters == LoadedFilters(store.defaultPrefs)
  {
    filters := {};
    var chipIds := ChipIds;
    for k := 0 to |chipIds|
      invariant forall c :: c in filters <==>
        c in chipIds[..k] && GetBoolean(store.defaultPrefs, FilterChipKey(c), c == User)
    {
      assert chipIds[..k + 1] == chipIds[..k] + [chipIds[k]];
      if store.GetFilterChipState(chipIds[k], chipIds[k] == User) {
        filters := filters + {chipIds[k]};
      }
    }
    assert chipIds[..|chipIds|] == chipIds;
  }

  /** The loop of `loadApps`: one record per installed package, its two rules
      read from the store, not selected. */
  method LoadAppRecords(store: FirewallPreferences, installed: seq<InstalledPackage>) returns (apps: seq<AppInfo>)
    requires store.RulesAreBooleans()
    ensures |apps| == |installed|
    ensures forall i :: 0 <= i < |installed| ==> apps[i] == RecordFor(installed[i], store.vpnPrefs)
  {
    apps := [];
    for i := 0 to |installed|
      invariant |apps| == i
      invariant forall j :: 0 <= j < i ==> apps[j] == RecordFor(installed[j], store.vpnPrefs)
    {
      var p := installed[i];
      var record := AppInfo(p.appName, p.packageName, p.isSystemApp, p.hasInternetPermission,
        store.IsWifiBlocked(Vpn, p.packageName), store.IsDataBlocked(Vpn, p.packageName), false);
      apps := apps + [record];
    }
  }

  /** The loop of `onDestroyActionMode`: every record becomes unselected. */
  method UnselectAll(apps0: seq<AppInfo>) returns (apps: seq<AppInfo>)
    ensures apps == ClearSelection(apps0)
  {
    apps := apps0;
    for j := 0 to |apps|
      invariant |apps| == |apps0|
      invariant forall i :: 0 <= i < |apps| ==> apps[i] == if i < j then apps0[i].(isSelected := false) else apps0[i]
    {
      apps := apps[j := apps[j].(isSelected := false)];
    }
  }

  /** The loop of `selectAllApps`: the record at every position of `visible`
      gets the selection `selected`, the others are kept. */
  method SetSelected(apps0: seq<AppInfo>, visible: seq<nat>, selected: bool) returns (apps: seq<AppInfo>)
    requires InRange(apps0, visible)
    ensures |apps| == |apps0|
    ensures forall j :: 0 <= j < |apps| ==>
      apps[j] == if j in visible then apps0[j].(isSelected := selected) else apps0[j]
  {
    apps := apps0;
    for k := 0 to |visible|
      invariant |apps| == |apps0|
      invariant forall j :: 0 <= j < |apps| ==>
        apps[j] == if j in visible[..k] then apps0[j].(isSelected := selected) else apps0[j]
    {
      assert visible[..k + 1] == visible[..k] + [visible[k]];
      apps := apps[visible[k] := apps[visible[k]].(isSelected := selected)];
    }
    assert visible[..|visible|] == visible;
  }

  class MainActivity {
    const prefs: FirewallPreferences
    var masterAppList: seq<AppInfo>
    var isSortBlockedFirst: bool
    var currentSearchQuery: Option<string>
    var selectedFilters: set<string>
    var isInSelectionMode: bool
    /** The adapter's list, as positions in `masterAppList`. */
    var displayed: seq<nat>
    /** The intents sent to the VPN service so far. */
    var vpnRequests: seq<VpnRequest>

    /** What holds of the records and the stores between any two events. */
    ghost predicate Valid()
      reads this`masterAppList, this`displayed, prefs`vpnPrefs, prefs`defaultPrefs
    {
      StoresValid() && InRange(masterAppList, displayed)
    }

    /** The rule store holds booleans only, the settings the screen reads
        are readable, and the records have distinct packages and agree with
        the rule store. */
    ghost predicate StoresValid()
      reads this`masterAppList, prefs`vpnPrefs, prefs`defaultPrefs
    {
      && prefs.RulesAreBooleans()
      && ScreenSettingsReadable(prefs.defaultPrefs)
      && DistinctPackages(masterAppList)
      && StoreMirrored(masterAppList, prefs.vpnPrefs)
    }

    /** `onCreate`: the cached sort option, the chip selection loaded from the
        saved states, one record per installed package read from the rule
        store, and the first display. */
    constructor (store: FirewallPreferences, installed: seq<InstalledPackage>)
      requires store.RulesAreBooleans() && ScreenSettingsReadable(store.defaultPrefs)
      requires forall i, j :: 0 <= i < j < |installed| ==> installed[i].packageName != installed[j].packageName
      ensures Valid() && prefs == store
      ensures isSortBlockedFirst == store.IsSortBlockedFirst()
      ensures selectedFilters == LoadedFilters(store.defaultPrefs)
      ensures ChipStatesMirror(store.defaultPrefs, selectedFilters)
      ensures |masterAppList| == |installed|
      ensures forall i :: 0 <= i < |installed| ==> masterAppList[i] == RecordFor(installed[i], store.vpnPrefs)
      ensures currentSearchQuery == None && !isInSelectionMode && vpnRequests == []
      ensures displayed == VisibleApps(masterAppList, None, selectedFilters, isSortBlockedFirst)
    {
      prefs := store;
      var sortBlockedFirst := store.IsSortBlockedFirst();
      isSortBlockedFirst := sortBlockedFirst;
      currentSearchQuery := None;
      isInSelectionMode := false;
      vpnRequests := [];

      var filters := LoadFilterChips(store);
      selectedFilters := filters;
      var apps := LoadAppRecords(store, installed);
      var shown := VisibleApps(apps, None, filters, sortBlockedFirst);
      assert InRange(apps, shown) && StoreMirrored(apps, store.vpnPrefs);
      assert DistinctPackages(apps);
      masterAppList := apps;
      displayed := shown;
    }

    /** `sortAndDisplayApps`. */
    method SortAndDisplayApps()
      requires Valid()
      modifies this`displayed
      ensures Valid()
      ensures displayed == VisibleApps(masterAppList, currentSearchQuery, selectedFilters, isSortBlockedFirst)
    {
      var r := VisibleApps(masterAppList, currentSearchQuery, selectedFilters, isSortBlockedFirst);
      assert InRange(masterAppList, r);
      displayed := r;
    }

    /** The listener of a filter chip: applies the transition rule, saves the
        state of all five chips and redisplays. */
    method OnFilterChipChanged(chipId: string, isChecked: bool)
      requires Valid()
      modifies this`selectedFilters, this`displayed, prefs`defaultPrefs
      ensures Valid()
      ensures selectedFilters == Transition(old(selectedFilters), chipId, isChecked,
        old(GetBoolean(prefs.defaultPrefs, FilterChipKey(Allowed), false)),
        old(GetBoolean(prefs.defaultPrefs, FilterChipKey(Blocked), false)))
      ensures prefs.defaultPrefs == SaveChipStates(old(prefs.defaultPrefs), selectedFilters, ChipIds)
      ensures ChipStatesMirror(prefs.defaultPrefs, selectedFilters)
      ensures old(Consistent(selectedFilters) && ChipStatesMirror(prefs.defaultPrefs, selectedFilters)) ==>
        Consistent(selectedFilters)
      ensures displayed == VisibleApps(masterAppList, currentSearchQuery, selectedFilters, isSortBlockedFirst)
    {
      assert Allowed in ChipIds && Blocked in ChipIds;
      if Consistent(selectedFilters) && ChipStatesMirror(prefs.defaultPrefs, selectedFilters) {
        MirrorGivesSavedStatus(prefs.defaultPrefs, selectedFilters);
        TransitionKeepsConsistent(selectedFilters, chipId, isChecked,
          GetBoolean(prefs.defaultPrefs, FilterChipKey(Allowed), false),
          GetBoolean(prefs.defaultPrefs, FilterChipKey(Blocked), false));
      }
      ApplyChipChange(chipId, isChecked);
      ghost var before := prefs.defaultPrefs;
      SaveFilterChipStates();
      SaveChipStatesKeepsReadable(before, selectedFilters, ChipIds);
      SavedChipStatesMirror(before, selectedFilters);
      SortAndDisplayApps();
    }

    /** The selection update of the chip listener's `when`. */
    method ApplyChipChange(chipId: string, isChecked: bool)
      requires BoolOrAbsent(prefs.defaultPrefs, FilterChipKey(Allowed)) && BoolOrAbsent(prefs.defaultPrefs, FilterChipKey(Blocked))
      modifies this`selectedFilters
      ensures selectedFilters == Transition(old(selectedFilters), chipId, isChecked,
        GetBoolean(prefs.defaultPrefs, FilterChipKey(Allowed), false),
        GetBoolean(prefs.defaultPrefs, FilterChipKey(Blocked), false))
    {
      var filters := selectedFilters;
      if isChecked && chipId == All {
        filters := {All};
        if prefs.GetFilterChipState(Allowed, false) { filters := filters + {Allowed}; }
        if prefs.GetFilterChipState(Blocked, false) { filters := filters + {Blocked}; }
      } else if isChecked && chipId == User {
        filters := filters - {All} - {SystemChip} + {User};
      } else if isChecked && chipId == SystemChip {
        filters := filters - {All} - {User} + {SystemChip};
      } else if isChecked && chipId == Allowed {
        filters := filters - {Blocked} + {Allowed};
      } else if isChecked && chipId == Blocked {
        filters := filters - {Allowed} + {Blocked};
      } else if !isChecked && chipId == All {
        filters := {User};
      } else if !isChecked && (chipId == User || chipId == SystemChip) {
        filters := filters - {chipId};
        if filters * TypeChips == {} {
          filters := filters + {All};
        }
      } else if !isChecked && (chipId == Allowed || chipId == Blocked) {
        filters := filters - {chipId};
      }
      selectedFilters := filters;
    }

    /** The chip listener's last loop: every chip's state saved under its key. */
    method SaveFilterChipStates()
      modifies prefs`defaultPrefs
      ensures prefs.defaultPrefs == SaveChipStates(old(prefs.defaultPrefs), selectedFilters, ChipIds)
    {
      ghost var before := prefs.defaultPrefs;
      var chipIds := ChipIds;
      for k := 0 to |chipIds|
        invariant prefs.defaultPrefs == SaveChipStates(before, selectedFilters, chipIds[..k])
      {
        assert chipIds[..k + 1][..k] == chipIds[..k];
        prefs.SetFilterChipState(chipIds[k], chipIds[k] in selectedFilters);
      }
      assert chipIds[..|chipIds|] == chipIds;
    }

    /** `startVpnService`: the START intent is sent once the platform's VPN
        consent is held (`VpnService.prepare` returned nothing) or the user
        grants it. */
    method StartVpnService(consentGranted: bool)
      modifies this`vpnRequests
      ensures vpnRequests == old(vpnRequests) + if consentGranted then [Start] else []
    {
      if consentGranted {
        vpnRequests := vpnRequests + [Start];
      }
    }

    /** `stopVpnService`. */
    method StopVpnService()
      modifies this`vpnRequests
      ensures vpnRequests == old(vpnRequests) + [Stop]
    {
      vpnRequests := vpnRequests + [Stop];
    }

    /** `forceVpnRestart`: nothing when the firewall is disabled, otherwise a
        STOP followed by a START. */
    method ForceVpnRestart()
      requires Valid()
      modifies this`vpnRequests
      ensures vpnRequests == old(vpnRequests) + if prefs.IsFirewallEnabled() then [Stop, Start] else []
    {
      if !prefs.IsFirewallEnabled() {
        return;
      }
      vpnRequests := vpnRequests + [Stop];
      vpnRequests := vpnRequests + [Start];
    }

    /** `onMasterToggleChanged`: start when now enabled, stop when now disabled. */
    method OnMasterToggleChanged(isEnabled: bool, consentGranted: bool)
      modifies this`vpnRequests
      ensures vpnRequests == old(vpnRequests) + if isEnabled then (if consentGranted then [Start] else []) else [Stop]
    {
      if isEnabled {
        StartVpnService(consentGranted);
      } else {
        StopVpnService();
      }
    }

    /** The master toggle's click listener: flips the stored enabled flag,
        then starts or stops the VPN service according to the new value. */
    method OnMasterToggleClicked(consentGranted: bool)
      requires Valid()
      modifies this`vpnRequests, prefs`defaultPrefs
      ensures Valid()
      ensures prefs.defaultPrefs == old(prefs.defaultPrefs)[FirewallEnabledKey := B(!old(prefs.IsFirewallEnabled()))]
      ensures prefs.IsFirewallEnabled() == !old(prefs.IsFirewallEnabled())
      ensures vpnRequests == old(vpnRequests) +
        if prefs.IsFirewallEnabled() then (if consentGranted then [Start] else []) else [Stop]
    {
      var isCurrentlyEnabled := prefs.IsFirewallEnabled();
      var newEnabledState := !isCurrentlyEnabled;
      prefs.SetFirewallEnabled(newEnabledState);
      OnMasterToggleChanged(newEnabledState, consentGranted);
    }

    /** `onDestroyActionMode`: leaves selection mode, clears every selection and redisplays. */
    method OnDestroyActionMode()
      requires Valid()
      modifies this`isInSelectionMode, this`masterAppList, this`displayed
      ensures Valid()
      ensures !isInSelectionMode
      ensures masterAppList == ClearSelection(old(masterAppList))
      ensures displayed == VisibleApps(masterAppList, currentSearchQuery, selectedFilters, isSortBlockedFirst)
    {
      isInSelectionMode := false;
      var apps := UnselectAll(masterAppList);
      SelectionKeepsMirror(masterAppList, apps, prefs.vpnPrefs);
      assert InRange(apps, displayed);
      masterAppList := apps;
      SortAndDisplayApps();
    }

    /** `onCreateActionMode`: enters selection mode. */
    method OnCreateActionMode()
      modifies this`isInSelectionMode
      ensures isInSelectionMode
    {
      isInSelectionMode := true;
    }

    /** `onItemLongClick`: enters selection mode if needed and flips the app's selection. */
    method OnItemLongClick(i: nat)
      requires Valid() && i < |masterAppList|
      modifies this`isInSelectionMode, this`masterAppList, this`displayed
      ensures Valid()
      ensures masterAppList == old(masterAppList)[i := old(masterAppList)[i].(isSelected := !old(masterAppList)[i].isSelected)]
      ensures isInSelectionMode <==> |SelectedIndices(masterAppList, |masterAppList|)| > 0
      ensures !isInSelectionMode ==>
        displayed == VisibleApps(masterAppList, currentSearchQuery, selectedFilters, isSortBlockedFirst)
      ensures isInSelectionMode ==> displayed == old(displayed)
    {
      if !isInSelectionMode {
        OnCreateActionMode();
      }
      ToggleSelection(i);
    }

    /** `onItemClick`: flips the app's selection in selection mode, else nothing. */
    method OnItemClick(i: nat)
      requires Valid() && i < |masterAppList|
      modifies this`isInSelectionMode, this`masterAppList, this`displayed
      ensures Valid()
      ensures old(isInSelectionMode) ==>
        masterAppList == old(masterAppList)[i := old(masterAppList)[i].(isSelected := !old(masterAppList)[i].isSelected)]
      ensures old(isInSelectionMode) ==>
        && (isInSelectionMode <==> |SelectedIndices(masterAppList, |masterAppList|)| > 0)
        && (!isInSelectionMode ==>
              displayed == VisibleApps(masterAppList, currentSearchQuery, selectedFilters, isSortBlockedFirst))
        && (isInSelectionMode ==> displayed == old(displayed))
      ensures !old(isInSelectionMode) ==>
        masterAppList == old(masterAppList) && !isInSelectionMode && displayed == old(displayed)
    {
      if isInSelectionMode {
        ToggleSelection(i);
      }
    }

    /** `toggleSelection`: flips one app's selection; when none is left
        selected, selection mode ends (which clears nothing more). */
    method ToggleSelection(i: nat)
      requires Valid() && i < |masterAppList|
      modifies this`isInSelectionMode, this`masterAppList, this`displayed
      ensures Valid()
      ensures masterAppList == old(masterAppList)[i := old(masterAppList)[i].(isSelected := !old(masterAppList)[i].isSelected)]
      ensures isInSelectionMode == (old(isInSelectionMode) && |SelectedIndices(masterAppList, |masterAppList|)| > 0)
      ensures old(isInSelectionMode) && !isInSelectionMode ==>
        displayed == VisibleApps(masterAppList, currentSearchQuery, selectedFilters, isSortBlockedFirst)
      ensures isInSelectionMode || !old(isInSelectionMode) ==> displayed == old(displayed)
    {
      ghost var before := masterAppList;
      masterAppList := masterAppList[i := masterAppList[i].(isSelected := !masterAppList[i].isSelected)];
      SelectionKeepsMirror(before, masterAppList, prefs.vpnPrefs);
      var selectedCount := |SelectedIndices(masterAppList, |masterAppList|)|;
      if selectedCount == 0 && isInSelectionMode {
        NoneSelectedClearIsIdentity(masterAppList);
        OnDestroyActionMode();
      }
    }

    /** `selectAllApps`: every displayed app becomes selected, or, when all of
        them already were, unselected. */
    method SelectAllApps()
      requires Valid()
      modifies this`masterAppList
      ensures Valid()
      ensures var allSelected := forall k :: 0 <= k < |displayed| ==> old(masterAppList)[displayed[k]].isSelected;
        && |masterAppList| == |old(masterAppList)|
        && forall j :: 0 <= j < |masterAppList| ==>
             masterAppList[j] == if j in displayed then old(masterAppList)[j].(isSelected := !allSelected) else old(masterAppList)[j]
    {
      var visibleApps := displayed;
      var allSelected := forall k :: 0 <= k < |visibleApps| ==> masterAppList[visibleApps[k]].isSelected;
      var apps := SetSelected(masterAppList, visibleApps, !allSelected);
      SelectionKeepsMirror(masterAppList, apps, prefs.vpnPrefs);
      assert InRange(apps, displayed);
      masterAppList := apps;
    }

    /** `onToggleClicked`: computes one new (Wi-Fi, data) pair from the clicked
        app, writes it for every target to the store and to the target's
        record, sends at most one restart for the whole batch, redisplays when
        sorting puts blocked apps first, and ends selection mode. */
    method OnToggleClicked(clicked: nat, toggleType: string)
      requires Valid() && clicked < |masterAppList|
      modifies this`masterAppList, this`displayed, this`isInSelectionMode, this`vpnRequests, prefs`vpnPrefs
      ensures Valid()
      ensures var pair := NewPair(old(masterAppList)[clicked], toggleType);
        var targets := ToggleTargets(old(masterAppList), clicked, old(isInSelectionMode));
        var toggled := ApplyPair(old(masterAppList), targets, pair.0, pair.1);
        && prefs.vpnPrefs == PutPairs(old(prefs.vpnPrefs), PackagesAt(old(masterAppList), targets), pair.0, pair.1)
        && masterAppList == (if old(isInSelectionMode) then ClearSelection(toggled) else toggled)
      ensures vpnRequests == old(vpnRequests) + if old(prefs.IsFirewallEnabled()) then [Stop, Start] else []
      ensures !isInSelectionMode
      ensures old(isSortBlockedFirst) || old(isInSelectionMode) ==>
        displayed == VisibleApps(masterAppList, currentSearchQuery, selectedFilters, isSortBlockedFirst)
      ensures !old(isSortBlockedFirst) && !old(isInSelectionMode) ==> displayed == old(displayed)
    {
      var isFirewallEnabled := prefs.IsFirewallEnabled();
      ghost var settings := prefs.defaultPrefs;
      ApplyToggle(clicked, toggleType);
      assert prefs.defaultPrefs == settings;
      FinishToggle(isFirewallEnabled);
    }

    /** The part of `onToggleClicked` after the writes: one restart when the
        firewall was enabled, the redisplay, and the end of selection mode. */
    method FinishToggle(isFirewallEnabled: bool)
      requires Valid() && isFirewallEnabled == prefs.IsFirewallEnabled()
      modifies this`masterAppList, this`displayed, this`isInSelectionMode, this`vpnRequests
      ensures Valid()
      ensures masterAppList == if old(isInSelectionMode) then ClearSelection(old(masterAppList)) else old(masterAppList)
      ensures vpnRequests == old(vpnRequests) + if isFirewallEnabled then [Stop, Start] else []
      ensures !isInSelectionMode
      ensures old(isSortBlockedFirst) || old(isInSelectionMode) ==>
        displayed == VisibleApps(masterAppList, currentSearchQuery, selectedFilters, isSortBlockedFirst)
      ensures !old(isSortBlockedFirst) && !old(isInSelectionMode) ==> displayed == old(displayed)
    {
      if isFirewallEnabled {
        ForceVpnRestart();
      }

      if isSortBlockedFirst {
        SortAndDisplayApps();
      }

      if isInSelectionMode {
        OnDestroyActionMode();
      }
    }

    /** The part of `onToggleClicked` before the restart: the new pair, the
        targets, and the writes. */
    method ApplyToggle(clicked: nat, toggleType: string)
      requires Valid() && clicked < |masterAppList|
      modifies this`masterAppList, prefs`vpnPrefs
      ensures Valid()
      ensures var pair := NewPair(old(masterAppList)[clicked], toggleType);
        var targets := ToggleTargets(old(masterAppList), clicked, isInSelectionMode);
        && prefs.vpnPrefs == PutPairs(old(prefs.vpnPrefs), PackagesAt(old(masterAppList), targets), pair.0, pair.1)
        && masterAppList == ApplyPair(old(masterAppList), targets, pair.0, pair.1)
    {
      var app := masterAppList[clicked];
      var newWifiState := if toggleType == WifiType then !app.isWifiBlocked else app.isWifiBlocked;
      var newDataState := if toggleType == DataType then !app.isDataBlocked else app.isDataBlocked;

      var targetApps := if isInSelectionMode then SelectedIndices(masterAppList, |masterAppList|) else [clicked];
      if |targetApps| == 0 && !isInSelectionMode {
        targetApps := [clicked];
      }

      assert targetApps == ToggleTargets(masterAppList, clicked, isInSelectionMode);
      ToggleKeepsMirror(masterAppList, prefs.vpnPrefs, targetApps, newWifiState, newDataState);
      PutPairsKeepsBooleans(prefs.vpnPrefs, PackagesAt(masterAppList, targetApps), newWifiState, newDataState);
      WriteToggle(targetApps, newWifiState, newDataState);
    }

    /** The loop of `onToggleClicked`: for each target, the pair is written to
        the store and into the target's record. */
    method WriteToggle(targets: seq<nat>, newWifiState: bool, newDataState: bool)
      requires InRange(masterAppList, targets)
      modifies this`masterAppList, prefs`vpnPrefs
      ensures masterAppList == ApplyPair(old(masterAppList), targets, newWifiState, newDataState)
      ensures prefs.vpnPrefs == PutPairs(old(prefs.vpnPrefs), PackagesAt(old(masterAppList), targets), newWifiState, newDataState)
    {
      ghost var apps0, rules0 := masterAppList, prefs.vpnPrefs;
      var apps := masterAppList;
      ghost var written: seq<string> := [];
      for k := 0 to |targets|
        invariant |apps| == |apps0|
        invariant forall j :: 0 <= j < |apps0| ==>
          apps[j] == if j in targets[..k] then apps0[j].(isWifiBlocked := newWifiState, isDataBlocked := newDataState) else apps0[j]
        invariant |written| == k && forall i :: 0 <= i < k ==> written[i] == apps0[targets[i]].packageName
        invariant prefs.vpnPrefs == PutPairs(rules0, written, newWifiState, newDataState)
      {
        var target := targets[k];
        assert targets[..k + 1] == targets[..k] + [target];
        var targetApp := apps[target];
        assert targetApp.packageName == apps0[target].packageName;
        prefs.SetWifiBlocked(Vpn, targetApp.packageName, newWifiState);
        prefs.SetDataBlocked(Vpn, targetApp.packageName, newDataState);
        assert (written + [targetApp.packageName])[..k] == written;
        written := written + [targetApp.packageName];
        apps := apps[target := targetApp.(isWifiBlocked := newWifiState, isDataBlocked := newDataState)];
      }
      assert targets[..|targets|] == targets;
      assert written == PackagesAt(apps0, targets);
      masterAppList := apps;
    }

    /** The "blocked first" checkbox of the sort dialog: caches and saves the option, then redisplays. */
    method OnSortBlockedFirstChanged(isChecked: bool)
      requires Valid()
      modifies this`isSortBlockedFirst, this`displayed, prefs`defaultPrefs
      ensures Valid()
      ensures isSortBlockedFirst == isChecked
      ensures prefs.defaultPrefs == old(prefs.defaultPrefs)[SortBlockedFirstKey := B(isChecked)]
      ensures displayed == VisibleApps(masterAppList, currentSearchQuery, selectedFilters, isChecked)
    {
      isSortBlockedFirst := isChecked;
      prefs.SetSortBlockedFirst(isSortBlockedFirst);
      SortAndDisplayApps();
    }

    /** The search box's listener: keeps the query and redisplays. */
    method OnQueryTextChange(newText: Option<string>)
      requires Valid()
      modifies this`currentSearchQuery, this`displayed
      ensures Valid()
      ensures currentSearchQuery == newText
      ensures displayed == VisibleApps(masterAppList, newText, selectedFilters, isSortBlockedFirst)
    {
      currentSearchQuery := newText;
      SortAndDisplayApps();
    }
  }
}
