/** The list of installed apps the firewall screen shows: the app records and
    the filter-then-sort pipeline that computes the visible list from the full
    list, the search query, the selected chips and the "blocked first" option.
    The visible list is given as positions in the full list, as the screen's
    list shares its records with the full list. */
module AppList {
  import opened KotlinStd
  import opened FilterChips

  /** An installed app as the screen holds it (its icon is not modelled). */
  datatype AppInfo = AppInfo(
    appName: string,
    packageName: string,
    isSystemApp: bool,
    hasInternetPermission: bool,
    isWifiBlocked: bool,
    isDataBlocked: bool,
    isSelected: bool)

  /** Blocked on at least one transport. */
  predicate IsBlockedApp(a: AppInfo)
  {
    a.isWifiBlocked || a.isDataBlocked
  }

  /** No query, a blank query, or a name containing the query ignoring case. */
  predicate MatchesSearch(a: AppInfo, query: Option<string>)
  {
    query.None? || IsBlank(query.value) || ContainsIgnoreCase(a.appName, query.value)
  }

  /** "user" keeps the non-system apps, otherwise "system" keeps the system apps. */
  predicate MatchesType(a: AppInfo, filters: set<string>)
  {
    if User in filters then !a.isSystemApp
    else if SystemChip in filters then a.isSystemApp
    else true
  }

  /** "allowed" keeps the apps blocked nowhere, otherwise "blocked" keeps the others. */
  predicate MatchesStatus(a: AppInfo, filters: set<string>)
  {
    if Allowed in filters then !IsBlockedApp(a)
    else if Blocked in filters then IsBlockedApp(a)
    else true
  }

  predicate Shown(a: AppInfo, query: Option<string>, filters: set<string>)
  {
    MatchesSearch(a, query) && MatchesType(a, filters) && MatchesStatus(a, filters)
  }

  /** The positions below `n` of the apps that pass every filter, in list order. */
  function ShownIndices(apps: seq<AppInfo>, query: Option<string>, filters: set<string>, n: nat): (r: seq<nat>)
    requires n <= |apps|
    ensures forall k :: 0 <= k < |r| ==> r[k] < n && Shown(apps[r[k]], query, filters)
    ensures forall i :: 0 <= i < n && Shown(apps[i], query, filters) ==> i in r
    ensures forall k, l :: 0 <= k < l < |r| ==> r[k] < r[l]
  {
    if n == 0 then []
    else ShownIndices(apps, query, filters, n - 1) + (if Shown(apps[n - 1], query, filters) then [n - 1] else [])
  }

  predicate InRange(apps: seq<AppInfo>, s: seq<nat>)
  {
    forall k :: 0 <= k < |s| ==> s[k] < |apps|
  }

  /** The sort comparator: with `blockedFirst`, blocked apps before the others,
      then (and otherwise only) by lowercased name. */
  predicate InOrder(apps: seq<AppInfo>, blockedFirst: bool, i: nat, j: nat)
    requires i < |apps| && j < |apps|
    ensures blockedFirst && IsBlockedApp(apps[i]) && !IsBlockedApp(apps[j]) ==> InOrder(apps, blockedFirst, i, j)
    ensures blockedFirst && !IsBlockedApp(apps[i]) && IsBlockedApp(apps[j]) ==> !InOrder(apps, blockedFirst, i, j)
    ensures IsBlockedApp(apps[i]) == IsBlockedApp(apps[j]) || !blockedFirst ==>
      (InOrder(apps, blockedFirst, i, j) <==> LexLe(Lowercase(apps[i].appName), Lowercase(apps[j].appName)))
  {
    var x, y := apps[i], apps[j];
    if blockedFirst && IsBlockedApp(x) != IsBlockedApp(y) then IsBlockedApp(x)
    else LexLe(Lowercase(x.appName), Lowercase(y.appName))
  }

  lemma InOrderTotal(apps: seq<AppInfo>, blockedFirst: bool, i: nat, j: nat)
    requires i < |apps| && j < |apps|
    ensures InOrder(apps, blockedFirst, i, j) || InOrder(apps, blockedFirst, j, i)
  {
    LexLeTotal(Lowercase(apps[i].appName), Lowercase(apps[j].appName));
  }

  lemma InOrderTransitive(apps: seq<AppInfo>, blockedFirst: bool, i: nat, j: nat, k: nat)
    requires i < |apps| && j < |apps| && k < |apps|
    requires InOrder(apps, blockedFirst, i, j) && InOrder(apps, blockedFirst, j, k)
    ensures InOrder(apps, blockedFirst, i, k)
  {
    var x, y, z := apps[i], apps[j], apps[k];
    if !blockedFirst || (IsBlockedApp(x) == IsBlockedApp(y) == IsBlockedApp(z)) {
      LexLeTransitive(Lowercase(x.appName), Lowercase(y.appName), Lowercase(z.appName));
    }
  }

  predicate Sorted(apps: seq<AppInfo>, blockedFirst: bool, s: seq<nat>)
    requires InRange(apps, s)
  {
    forall k, l :: 0 <= k < l < |s| ==> InOrder(apps, blockedFirst, s[k], s[l])
  }

  /** Inserts `x` into a list before the first element it may precede. */
  function Insert(apps: seq<AppInfo>, blockedFirst: bool, x: nat, s: seq<nat>): (r: seq<nat>)
    requires x < |apps| && InRange(apps, s)
    ensures InRange(apps, r)
    ensures multiset(r) == multiset(s) + multiset{x}
  {
    if s == [] then [x]
    else if InOrder(apps, blockedFirst, x, s[0]) then [x] + s
    else
      assert s == [s[0]] + s[1..];
      [s[0]] + Insert(apps, blockedFirst, x, s[1..])
  }

  /** An element that may precede every element of a sorted list can head it. */
  lemma SortedCons(apps: seq<AppInfo>, blockedFirst: bool, y: nat, s: seq<nat>)
    requires y < |apps| && InRange(apps, s) && Sorted(apps, blockedFirst, s)
    requires forall l :: 0 <= l < |s| ==> InOrder(apps, blockedFirst, y, s[l])
    ensures InRange(apps, [y] + s) && Sorted(apps, blockedFirst, [y] + s)
  {
    var r := [y] + s;
    forall k, l | 0 <= k < l < |r| ensures InOrder(apps, blockedFirst, r[k], r[l]) {
      assert r[l] == s[l - 1];
      if k > 0 { assert r[k] == s[k - 1]; }
    }
  }

  lemma SortedTail(apps: seq<AppInfo>, blockedFirst: bool, s: seq<nat>)
    requires |s| > 0 && InRange(apps, s) && Sorted(apps, blockedFirst, s)
    ensures InRange(apps, s[1..]) && Sorted(apps, blockedFirst, s[1..])
  {
    forall k, l | 0 <= k < l < |s| - 1 ensures InOrder(apps, blockedFirst, s[1..][k], s[1..][l]) {
      assert s[1..][k] == s[k + 1] && s[1..][l] == s[l + 1];
    }
  }

  /** Inserting into a sorted list keeps it sorted. */
  lemma {:induction false} InsertSorted(apps: seq<AppInfo>, blockedFirst: bool, x: nat, s: seq<nat>)
    requires x < |apps| && InRange(apps, s) && Sorted(apps, blockedFirst, s)
    ensures Sorted(apps, blockedFirst, Insert(apps, blockedFirst, x, s))
  {
    if s == [] {
    } else if InOrder(apps, blockedFirst, x, s[0]) {
      forall l | 0 <= l < |s| ensures InOrder(apps, blockedFirst, x, s[l]) {
        if l > 0 { InOrderTransitive(apps, blockedFirst, x, s[0], s[l]); }
      }
      SortedCons(apps, blockedFirst, x, s);
    } else {
      var rest := Insert(apps, blockedFirst, x, s[1..]);
      SortedTail(apps, blockedFirst, s);
      InsertSorted(apps, blockedFirst, x, s[1..]);
      InOrderTotal(apps, blockedFirst, x, s[0]);
      assert s == [s[0]] + s[1..];
      forall l | 0 <= l < |rest| ensures InOrder(apps, blockedFirst, s[0], rest[l]) {
        assert rest[l] in multiset(rest);
        if rest[l] != x {
          assert rest[l] in multiset(s[1..]);
          var j :| 0 <= j < |s[1..]| && s[1..][j] == rest[l];
          assert s[j + 1] == rest[l];
        }
      }
      SortedCons(apps, blockedFirst, s[0], rest);
    }
  }

  /** A stable insertion sort of positions by the comparator. */
  function SortIndices(apps: seq<AppInfo>, blockedFirst: bool, s: seq<nat>): (r: seq<nat>)
    requires InRange(apps, s)
    ensures InRange(apps, r) && Sorted(apps, blockedFirst, r)
    ensures multiset(r) == multiset(s)
  {
    if s == [] then []
    else
      assert s == [s[0]] + s[1..];
      var sortedRest := SortIndices(apps, blockedFirst, s[1..]);
      InsertSorted(apps, blockedFirst, s[0], sortedRest);
      Insert(apps, blockedFirst, s[0], sortedRest)
  }

  /** `sortAndDisplayApps`: the apps that pass the search, type and status
      filters, sorted. What the list holds is stated by `VisibleAppsSpec`. */
  function VisibleApps(apps: seq<AppInfo>, query: Option<string>, filters: set<string>, blockedFirst: bool): (r: seq<nat>)
    ensures InRange(apps, r)
  {
    SortIndices(apps, blockedFirst, ShownIndices(apps, query, filters, |apps|))
  }

  /** The visible list is sorted and holds each filtered position once. */
  lemma VisibleAppsSpec(apps: seq<AppInfo>, query: Option<string>, filters: set<string>, blockedFirst: bool)
    ensures var r := VisibleApps(apps, query, filters, blockedFirst);
      && Sorted(apps, blockedFirst, r)
      && multiset(r) == multiset(ShownIndices(apps, query, filters, |apps|))
  {
    var r := SortIndices(apps, blockedFirst, ShownIndices(apps, query, filters, |apps|));
    assert r == VisibleApps(apps, query, filters, blockedFirst);
  }

  /** The visible list holds exactly the apps that pass every filter. */
  lemma VisibleAppsShown(apps: seq<AppInfo>, query: Option<string>, filters: set<string>, blockedFirst: bool)
    ensures var r := VisibleApps(apps, query, filters, blockedFirst);
      && (forall k :: 0 <= k < |r| ==> Shown(apps[r[k]], query, filters))
      && (forall i :: 0 <= i < |apps| && Shown(apps[i], query, filters) ==> i in r)
  {
    var shown := ShownIndices(apps, query, filters, |apps|);
    var r := SortIndices(apps, blockedFirst, shown);
    assert r == VisibleApps(apps, query, filters, blockedFirst);
    forall k | 0 <= k < |r| ensures Shown(apps[r[k]], query, filters) {
      assert r[k] in multiset(shown);
      var j :| 0 <= j < |shown| && shown[j] == r[k];
    }
    forall i | 0 <= i < |apps| && Shown(apps[i], query, filters) ensures i in r {
      assert i in multiset(r);
    }
  }

  /** What the order of the visible list means: by lowercased name, and with
      `blockedFirst` every app blocked somewhere before every app blocked
      nowhere, each group by name. */
  lemma VisibleAppsOrder(apps: seq<AppInfo>, query: Option<string>, filters: set<string>, blockedFirst: bool)
    ensures var r := VisibleApps(apps, query, filters, blockedFirst);
      && (!blockedFirst ==> forall k, l :: 0 <= k < l < |r| ==>
            LexLe(Lowercase(apps[r[k]].appName), Lowercase(apps[r[l]].appName)))
      && (blockedFirst ==> forall k, l :: 0 <= k < l < |r| && IsBlockedApp(apps[r[l]]) ==> IsBlockedApp(apps[r[k]]))
      && (blockedFirst ==> forall k, l :: 0 <= k < l < |r| && IsBlockedApp(apps[r[k]]) == IsBlockedApp(apps[r[l]]) ==>
            LexLe(Lowercase(apps[r[k]].appName), Lowercase(apps[r[l]].appName)))
  {
    VisibleAppsSpec(apps, query, filters, blockedFirst);
    var r := VisibleApps(apps, query, filters, blockedFirst);
    assert forall k, l :: 0 <= k < l < |r| ==> InOrder(apps, blockedFirst, r[k], r[l]);
  }
}
