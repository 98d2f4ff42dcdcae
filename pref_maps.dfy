/** The two key-value stores of the firewall, as maps, and the logic that reads
    them: rule keys, typed lookups with defaults, the derivation of the blocked
    package set and the settings kept beside the rules. */
module PrefMaps {
  import opened KotlinStd
  import opened ThemeModes

  /** A value held by a key-value store: a boolean, a string, or a value of
      any other type (number, string set) that the firewall never writes. */
  datatype Value = B(b: bool) | S(s: string) | Other

  /** The firewall's operating modes; every mode shares the one rule store. */
  datatype FirewallMode = Vpn

  /** The name of a mode's rule store, also its section in an export document. */
  function ModeKey(mode: FirewallMode): string
  {
    "vpn_prefs"
  }

  const WifiType: string := "wifi"
  const DataType: string := "data"

  /** The two transports a rule key can name. */
  predicate IsTransport(t: string)
  {
    t == WifiType || t == DataType
  }

  const DefaultsSection: string := "defaults"
  const FirewallEnabledKey: string := "is_firewall_enabled"
  const SortBlockedFirstKey: string := "sort_blocked_first"
  const RebootReminderKey: string := "reboot_reminder_enabled"
  const ThemeModeKey: string := "theme_mode"

  function FilterChipKey(chipId: string): string
  {
    "filter_chip_" + chipId
  }

  /** The chips whose saved state `getSelectedFilters` reports, in its order. */
  const SelectedFilterIds: seq<string> := ["all", "user", "system", "internet", "allowed", "blocked"]

  /** The rule key of a package for one transport. */
  function GetKey(packageName: string, keyType: string): (r: string)
    ensures |r| == |packageName| + 1 + |keyType| && r[|packageName|] == '_'
  {
    packageName + "_" + keyType
  }

  /** Distinct (package, transport) pairs have distinct keys. */
  lemma GetKeyInjective(p: string, t: string, q: string, u: string)
    requires IsTransport(t) && IsTransport(u)
    ensures GetKey(p, t) == GetKey(q, u) ==> p == q && t == u
  {
    if GetKey(p, t) == GetKey(q, u) {
      var k := GetKey(p, t);
      assert |p| == |q|;
      assert p == k[..|p|] == q;
      assert t == k[|p| + 1..] == u;
    }
  }

  /** A rule key ends with its transport, and the package is what precedes its last '_'. */
  lemma ParseKey(p: string, t: string)
    requires IsTransport(t)
    ensures EndsWith(GetKey(p, t), t)
    ensures SubstringBeforeLast(GetKey(p, t), '_') == p
  {
    assert GetKey(p, t) == p + ['_'] + t;
    assert '_' !in t;
    BeforeLastOfJoin(p, '_', t);
    var k := GetKey(p, t);
    assert k[|k| - |t|..] == t;
  }

  predicate BoolOrAbsent(m: map<string, Value>, key: string)
  {
    key !in m || m[key].B?
  }

  predicate StringOrAbsent(m: map<string, Value>, key: string)
  {
    key !in m || m[key].S?
  }

  /** `getBoolean(key, defaultValue)`. */
  function GetBoolean(m: map<string, Value>, key: string, defaultValue: bool): (r: bool)
    requires BoolOrAbsent(m, key)
    ensures key !in m ==> r == defaultValue
    ensures key in m ==> m[key] == B(r)
  {
    if key in m then m[key].b else defaultValue
  }

  /** `getString(key, defaultValue)`. */
  function GetString(m: map<string, Value>, key: string, defaultValue: string): (r: string)
    requires StringOrAbsent(m, key)
    ensures key !in m ==> r == defaultValue
    ensures key in m ==> m[key] == S(r)
  {
    if key in m then m[key].s else defaultValue
  }

  /** Whether a package is blocked on a transport; a rule never written reads as false. */
  function IsBlocked(m: map<string, Value>, p: string, t: string): (r: bool)
    requires BoolOrAbsent(m, GetKey(p, t))
    ensures r <==> GetKey(p, t) in m && m[GetKey(p, t)] == B(true)
  {
    GetBoolean(m, GetKey(p, t), false)
  }

  /** Writing a rule is read back at once, and writing it again changes nothing. */
  lemma SetThenIsBlocked(m: map<string, Value>, p: string, t: string, b: bool)
    ensures IsBlocked(m[GetKey(p, t) := B(b)], p, t) == b
    ensures m[GetKey(p, t) := B(b)][GetKey(p, t) := B(b)] == m[GetKey(p, t) := B(b)]
  {
  }

  /** Writing one rule leaves every other (package, transport) rule as it was. */
  lemma SetLeavesOtherRules(m: map<string, Value>, p: string, t: string, b: bool, q: string, u: string)
    requires IsTransport(t) && IsTransport(u) && (p != q || t != u)
    requires BoolOrAbsent(m, GetKey(q, u))
    ensures BoolOrAbsent(m[GetKey(p, t) := B(b)], GetKey(q, u))
    ensures IsBlocked(m[GetKey(p, t) := B(b)], q, u) == IsBlocked(m, q, u)
  {
    GetKeyInjective(p, t, q, u);
  }

  /** The boolean entries of a store: what `copySettings` keeps. */
  function BoolEntries(m: map<string, Value>): (r: map<string, Value>)
    ensures forall k :: k in r <==> k in m && m[k].B?
    ensures forall k :: k in r ==> r[k] == m[k]
  {
    map k | k in m && m[k].B? :: m[k]
  }

  function KeyType(isWifi: bool): (r: string)
    ensures IsTransport(r) && (r == WifiType <==> isWifi)
  {
    if isWifi then WifiType else DataType
  }

  /** An entry that makes its key's prefix a blocked package for transport `t`. */
  predicate Contributes(m: map<string, Value>, key: string, t: string)
  {
    key in m && m[key] == B(true) && EndsWith(key, t) && SubstringBeforeLast(key, '_') != ""
  }

  /** `getBlockedPackagesForNetwork`: the non-empty prefixes, before the last '_',
      of the keys that hold true and end with the transport's name. */
  function BlockedPackages(m: map<string, Value>, isWifi: bool): (r: set<string>)
    ensures forall p :: p in r <==> exists k :: Contributes(m, k, KeyType(isWifi)) && SubstringBeforeLast(k, '_') == p
  {
    BlockedAmong(m, m.Keys, KeyType(isWifi))
  }

  /** The packages the keys of `keys` contribute for transport `t`. */
  function BlockedAmong(m: map<string, Value>, keys: set<string>, t: string): set<string>
  {
    set k | k in keys && Contributes(m, k, t) :: SubstringBeforeLast(k, '_')
  }

  /** Scanning one more key adds its package when it contributes one. */
  lemma BlockedAmongAdd(m: map<string, Value>, keys: set<string>, key: string, t: string)
    ensures BlockedAmong(m, keys + {key}, t)
         == BlockedAmong(m, keys, t) + if Contributes(m, key, t) then {SubstringBeforeLast(key, '_')} else {}
  {
    var lhs, rhs := BlockedAmong(m, keys + {key}, t),
      BlockedAmong(m, keys, t) + if Contributes(m, key, t) then {SubstringBeforeLast(key, '_')} else {};
    forall p | p in lhs ensures p in rhs {
      var k :| k in keys + {key} && Contributes(m, k, t) && SubstringBeforeLast(k, '_') == p;
      if k != key {
        assert p in BlockedAmong(m, keys, t);
      }
    }
  }

  /** Blocking a non-empty package puts it into the blocked set of that transport. */
  lemma BlockedAfterSet(m: map<string, Value>, p: string, isWifi: bool)
    requires p != ""
    ensures p in BlockedPackages(m[GetKey(p, KeyType(isWifi)) := B(true)], isWifi)
  {
    var k := GetKey(p, KeyType(isWifi));
    ParseKey(p, KeyType(isWifi));
    assert Contributes(m[k := B(true)], k, KeyType(isWifi));
  }

  /** Unblocking a rule removes that key from the derivation: the blocked set is
      the one the other keys alone give. */
  lemma UnblockedKeyDoesNotContribute(m: map<string, Value>, p: string, t: string, isWifi: bool)
    ensures BlockedPackages(m[GetKey(p, t) := B(false)], isWifi) == BlockedPackages(m - {GetKey(p, t)}, isWifi)
  {
    var k0 := GetKey(p, t);
    var m1, m2 := m[k0 := B(false)], m - {k0};
    forall k ensures Contributes(m1, k, KeyType(isWifi)) <==> Contributes(m2, k, KeyType(isWifi)) {
    }
  }

  /** A store whose keys all have the `<pkg>_wifi` / `<pkg>_data` form. */
  predicate IsRuleKey(k: string)
  {
    EndsWith(k, "_" + WifiType) || EndsWith(k, "_" + DataType)
  }

  /** The key a rule key was built from. */
  lemma RuleKeyIsGetKey(k: string) returns (p: string, t: string)
    requires IsRuleKey(k)
    ensures IsTransport(t) && k == GetKey(p, t)
  {
    t := if EndsWith(k, "_" + WifiType) then WifiType else DataType;
    p := k[..|k| - 5];
    assert k == k[..|k| - 5] + k[|k| - 5..];
  }

  /** A rule key that ends with a transport is the key of that transport for
      its part before the last '_'. */
  lemma RuleKeyOfTransport(k: string, t: string)
    requires IsRuleKey(k) && IsTransport(t) && EndsWith(k, t)
    ensures k == GetKey(SubstringBeforeLast(k, '_'), t)
  {
    var q, u := RuleKeyIsGetKey(k);
    ParseKey(q, u);
    assert k[|k| - 4..] == t;
    assert k[|k| - 4..] == u;
  }

  /** When every key is a rule key holding a boolean, the blocked set of a
      transport is exactly the non-empty packages whose rule for it is true. */
  lemma BlockedPackagesExact(m: map<string, Value>, isWifi: bool, p: string)
    requires forall k :: k in m ==> IsRuleKey(k) && m[k].B?
    ensures BoolOrAbsent(m, GetKey(p, KeyType(isWifi)))
    ensures p in BlockedPackages(m, isWifi) <==> p != "" && IsBlocked(m, p, KeyType(isWifi))
  {
    var t := KeyType(isWifi);
    if p in BlockedPackages(m, isWifi) {
      var k :| Contributes(m, k, t) && SubstringBeforeLast(k, '_') == p;
      RuleKeyOfTransport(k, t);
    }
    if p != "" && IsBlocked(m, p, t) {
      var k := GetKey(p, t);
      ParseKey(p, t);
      assert Contributes(m, k, t);
    }
  }

  /** Copying keeps both blocked sets. */
  lemma BoolEntriesKeepBlockedSets(m: map<string, Value>, isWifi: bool)
    ensures BlockedPackages(BoolEntries(m), isWifi) == BlockedPackages(m, isWifi)
  {
    forall k ensures Contributes(BoolEntries(m), k, KeyType(isWifi)) <==> Contributes(m, k, KeyType(isWifi)) {
    }
  }

  /** The six chip states `getSelectedFilters` reads are booleans or absent. */
  predicate SelectedFiltersReadable(d: map<string, Value>)
  {
    forall c :: c in SelectedFilterIds ==> BoolOrAbsent(d, FilterChipKey(c))
  }

  /** `getThemeMode`: the stored mode, SYSTEM when none is stored or the
      stored string names no mode. */
  function ThemeModeIn(d: map<string, Value>): (r: ThemeMode)
    requires StringOrAbsent(d, ThemeModeKey)
    ensures ThemeModeKey !in d ==> r == System
    ensures ThemeModeKey in d ==> r == FromStorage(Some(d[ThemeModeKey].s))
  {
    FromStorage(Some(GetString(d, ThemeModeKey, StorageValue(System))))
  }

  /** A stored theme mode is read back unchanged. */
  lemma ThemeModeStored(d: map<string, Value>, m: ThemeMode)
    ensures ThemeModeIn(d[ThemeModeKey := S(StorageValue(m))]) == m
  {
    FromStorageRoundTrip(m);
  }

  /** `getSelectedFilters`: the chips whose saved state is true; a chip never saved is off. */
  function SelectedFiltersIn(d: map<string, Value>): (r: set<string>)
    requires SelectedFiltersReadable(d)
    ensures forall c :: c in r <==> c in SelectedFilterIds && FilterChipKey(c) in d && d[FilterChipKey(c)] == B(true)
  {
    set c | c in SelectedFilterIds && GetBoolean(d, FilterChipKey(c), false)
  }
}
