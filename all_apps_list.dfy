/** `AllAppsList`: the catalogue behind the all-apps view. `data` holds one
    entry per (component, user); `added`, `removed` and `modified` collect
    the entries that changed since the listeners were last told. Package
    events from the platform arrive as the list of launchable activities the
    platform reports for the package (`getActivityList(packageName, user)`),
    the app filter is a fixed predicate on components, and the icon cache is
    a fixed lookup plus an eviction log. */
module AllAppsList {
  import opened Java
  import opened Platform
  import opened IconCache
  import opened AppInfo

  // ---------------------------------------------------------------------
  // Selections made by the loops over `data`

  /** Which entries a pass over `data` acts on. */
  datatype Criterion =
    /** `removePackage` and the empty-list branch of `updatePackage`. */
    | InPackage(packageName: string, user: UserHandle)
    /** The first pass of `updatePackage`: the package's entries whose
        component the platform no longer lists. */
    | MissingFrom(packageName: string, user: UserHandle, listed: set<ComponentName>)
    /** `updatePackageFlags`: the user's entries whose package the filter matches. */
    | FlagTarget(pkgFilter: string -> bool, user: UserHandle)
    /** `updateIconsAndLabels`: the user's entries of the given packages. */
    | AmongPackages(packages: set<string>, user: UserHandle)

  /** Whether `activities` lists `component`. */
  predicate HasActivity(activities: seq<ActivityInfo>, component: ComponentName)
  {
    exists i :: 0 <= i < |activities| && activities[i].componentName == component
  }

  /** The components `activities` lists. */
  function Components(activities: seq<ActivityInfo>): (r: set<ComponentName>)
    ensures forall component :: component in r <==> HasActivity(activities, component)
  {
    set i | 0 <= i < |activities| :: activities[i].componentName
  }

  predicate Selects(c: Criterion, a: AppInfo)
  {
    match c
    case InPackage(p, u) =>
      a.user == u && a.intent.component.Some? && a.intent.component.value.packageName == p
    case MissingFrom(p, u, listed) =>
      a.user == u && a.intent.component.Some? && a.intent.component.value.packageName == p
      && a.intent.component.value !in listed
    case FlagTarget(f, u) =>
      a.user == u && a.intent.component.Some? && f(a.intent.component.value.packageName)
    case AmongPackages(ps, u) =>
      a.user == u && a.componentName.packageName in ps
  }

  /** Every entry in `s` is selected by `c`, and so names a component. */
  predicate SelectedHaveComponents(c: Criterion, s: seq<AppInfo>)
  {
    forall k :: 0 <= k < |s| ==> Selects(c, s[k]) && s[k].intent.component.Some?
  }

  /** `[a]` when `c` selects `a`, otherwise nothing. */
  function Pick(c: Criterion, a: AppInfo): seq<AppInfo>
  {
    if Selects(c, a) then [a] else []
  }

  /** `[a]` when `c` does not select `a`, otherwise nothing. */
  function Keep(c: Criterion, a: AppInfo): seq<AppInfo>
  {
    if Selects(c, a) then [] else [a]
  }

  /** The selected entries, in list order. */
  function Selected(c: Criterion, s: seq<AppInfo>): seq<AppInfo>
  {
    if s == [] then [] else Pick(c, s[0]) + Selected(c, s[1..])
  }

  /** The entries that are not selected, in list order. */
  function Unselected(c: Criterion, s: seq<AppInfo>): seq<AppInfo>
  {
    if s == [] then [] else Keep(c, s[0]) + Unselected(c, s[1..])
  }

  function Reverse<T>(s: seq<T>): seq<T>
  {
    if s == [] then [] else Reverse(s[1..]) + [s[0]]
  }

  function KeysOf(s: seq<AppInfo>): (r: seq<ComponentKey>)
    ensures |r| == |s| && forall j :: 0 <= j < |s| ==> r[j] == s[j].ToComponentKey()
  {
    if s == [] then [] else KeysOf(s[..|s| - 1]) + [s[|s| - 1].ToComponentKey()]
  }

  /** No two entries share a component and a user. */
  predicate DistinctKeys(s: seq<AppInfo>)
  {
    forall i, j :: 0 <= i < j < |s| ==> s[i].ToComponentKey() != s[j].ToComponentKey()
  }

  /** Some entry of `apps` is `component` for `user`. */
  predicate HasEntry(apps: seq<AppInfo>, component: ComponentName, user: UserHandle)
  {
    exists i :: 0 <= i < |apps| && apps[i].user == user && apps[i].componentName == component
  }

  lemma HasEntryIffKey(apps: seq<AppInfo>, component: ComponentName, user: UserHandle)
    ensures HasEntry(apps, component, user) <==> ComponentKey(component, user) in KeysOf(apps)
  {
    if ComponentKey(component, user) in KeysOf(apps) {
      var j :| 0 <= j < |apps| && KeysOf(apps)[j] == ComponentKey(component, user);
      assert apps[j].user == user && apps[j].componentName == component;
    }
  }

  // ---------------------------------------------------------------------
  // Properties of the selections

  lemma {:induction false} SelectedAppend(c: Criterion, s: seq<AppInfo>, x: AppInfo)
    ensures Selected(c, s + [x]) == Selected(c, s) + Pick(c, x)
  {
    if s == [] {
      assert [x][1..] == [];
      assert Selected(c, [x]) == Pick(c, x) + Selected(c, []);
    } else {
      var t := s[1..];
      var sx := s + [x];
      assert sx[0] == s[0] && sx[1..] == t + [x];
      SelectedAppend(c, t, x);
      calc {
        Selected(c, sx);
        Pick(c, s[0]) + Selected(c, t + [x]);
        Pick(c, s[0]) + (Selected(c, t) + Pick(c, x));
        (Pick(c, s[0]) + Selected(c, t)) + Pick(c, x);
      }
    }
  }

  /** Every entry is either kept or selected, and none is lost or duplicated. */
  lemma {:induction false} SelectionPartitions(c: Criterion, s: seq<AppInfo>)
    ensures multiset(Unselected(c, s)) + multiset(Selected(c, s)) == multiset(s)
  {
    if s != [] {
      var t := s[1..];
      var x := s[0];
      SelectionPartitions(c, t);
      assert s == [x] + t;
      assert multiset(Keep(c, x)) + multiset(Pick(c, x)) == multiset([x]) by {
        if Selects(c, x) {
          assert Keep(c, x) == [] && Pick(c, x) == [x];
        } else {
          assert Keep(c, x) == [x] && Pick(c, x) == [];
        }
      }
      calc {
        multiset(Unselected(c, s)) + multiset(Selected(c, s));
        multiset(Keep(c, x) + Unselected(c, t)) + multiset(Pick(c, x) + Selected(c, t));
        (multiset(Keep(c, x)) + multiset(Pick(c, x))) + (multiset(Unselected(c, t)) + multiset(Selected(c, t)));
        multiset([x]) + multiset(t);
      }
    }
  }

  /** An entry is selected exactly when it is in `s` and `c` selects it, and
      kept exactly when it is in `s` and `c` does not. */
  lemma {:induction false} SelectionMember(c: Criterion, s: seq<AppInfo>, y: AppInfo)
    ensures y in Selected(c, s) <==> y in s && Selects(c, y)
    ensures y in Unselected(c, s) <==> y in s && !Selects(c, y)
  {
    if s != [] {
      var t := s[1..];
      SelectionMember(c, t, y);
      assert s == [s[0]] + t;
      assert y in s <==> y == s[0] || y in t;
    }
  }

  lemma UnselectedMember(c: Criterion, s: seq<AppInfo>, y: AppInfo)
    requires y in Unselected(c, s)
    ensures y in s && !Selects(c, y)
  {
    SelectionMember(c, s, y);
  }

  /** Dropping entries keeps the keys of the rest distinct. */
  lemma {:induction false} UnselectedDistinct(c: Criterion, s: seq<AppInfo>)
    requires DistinctKeys(s)
    ensures DistinctKeys(Unselected(c, s))
  {
    if s != [] {
      var t := s[1..];
      assert DistinctKeys(t) by {
        forall i, j | 0 <= i < j < |t|
          ensures t[i].ToComponentKey() != t[j].ToComponentKey()
        {
          assert t[i] == s[i + 1] && t[j] == s[j + 1];
        }
      }
      UnselectedDistinct(c, t);
      var rest := Unselected(c, t);
      if !Selects(c, s[0]) {
        forall j | 0 <= j < |rest|
          ensures s[0].ToComponentKey() != rest[j].ToComponentKey()
        {
          UnselectedMember(c, t, rest[j]);
          var k :| 0 <= k < |t| && t[k] == rest[j];
          assert s[k + 1] == rest[j];
        }
        var u := [s[0]] + rest;
        assert Unselected(c, s) == u;
        forall i, j | 0 <= i < j < |u|
          ensures u[i].ToComponentKey() != u[j].ToComponentKey()
        {
          if i > 0 {
            assert u[i] == rest[i - 1] && u[j] == rest[j - 1];
          } else {
            assert u[j] == rest[j - 1];
          }
        }
      }
    }
  }

  lemma ReverseSelectedStep(c: Criterion, x: AppInfo, t: seq<AppInfo>)
    ensures Selected(c, [x] + t) == Pick(c, x) + Selected(c, t)
    ensures Unselected(c, [x] + t) == Keep(c, x) + Unselected(c, t)
    ensures Reverse(Selected(c, [x] + t)) == Reverse(Selected(c, t)) + Pick(c, x)
  {
    assert ([x] + t)[1..] == t;
    var sel := Selected(c, t);
    if Selects(c, x) {
      assert ([x] + sel)[1..] == sel;
      assert Reverse([x] + sel) == Reverse(sel) + [x];
    } else {
      assert Pick(c, x) + sel == sel;
      assert Reverse(sel) + [] == Reverse(sel);
    }
  }

  /** One step of the backward removal loop at index `i`: how the kept and
      the selected entries of `orig[i..]` extend those of `orig[i + 1..]`. */
  lemma RemovalStep(c: Criterion, orig: seq<AppInfo>, i: nat, selected: bool)
    requires i < |orig| && selected == Selects(c, orig[i])
    ensures Unselected(c, orig[i..])
         == (if selected then [] else [orig[i]]) + Unselected(c, orig[i + 1..])
    ensures Selected(c, orig[i..])
         == (if selected then [orig[i]] else []) + Selected(c, orig[i + 1..])
  {
    assert orig[i..] == [orig[i]] + orig[i + 1..];
    ReverseSelectedStep(c, orig[i], orig[i + 1..]);
  }

  /** Deleting index `i` of `prefix[..i + 1] + kept`. */
  lemma DeleteAt(s: seq<AppInfo>, prefix: seq<AppInfo>, kept: seq<AppInfo>, i: nat)
    requires i < |prefix| && s == prefix[..i + 1] + kept
    ensures s[i] == prefix[i]
    ensures s[..i] + s[i + 1..] == prefix[..i] + kept
    ensures s == prefix[..i] + ([prefix[i]] + kept)
  {
    assert prefix[..i + 1] == prefix[..i] + [prefix[i]];
    assert s[..i] == prefix[..i];
    assert s[i + 1..] == kept;
  }

  /** Distinct keys identify an entry by its key. */
  lemma SameKeySameEntry(s: seq<AppInfo>, a: AppInfo, b: AppInfo)
    requires DistinctKeys(s) && a in s && b in s && a.ToComponentKey() == b.ToComponentKey()
    ensures a == b
  {
    var i :| 0 <= i < |s| && s[i] == a;
    var j :| 0 <= j < |s| && s[j] == b;
    assert s[i].ToComponentKey() == s[j].ToComponentKey();
  }

  lemma DistinctObjects(s: seq<AppInfo>, i: nat)
    requires DistinctKeys(s) && i < |s|
    ensures forall k :: 0 <= k < |s| && k != i ==> s[k] != s[i]
  {
    forall k | 0 <= k < |s| && k != i
      ensures s[k] != s[i]
    {
      if k < i {
        assert s[k].ToComponentKey() != s[i].ToComponentKey();
      } else {
        assert s[i].ToComponentKey() != s[k].ToComponentKey();
      }
    }
  }

  lemma AppendAssoc<T>(a: seq<T>, b: seq<T>, x: T)
    ensures a + (b + [x]) == (a + b) + [x]
  {
  }

  lemma ReverseCons<T>(x: T, s: seq<T>)
    ensures Reverse([x] + s) == Reverse(s) + [x]
  {
    assert ([x] + s)[1..] == s;
  }

  /** Reversal keeps the elements. */
  lemma {:induction false} ReverseMember<T>(s: seq<T>, y: T)
    ensures y in Reverse(s) <==> y in s
  {
    if s != [] {
      ReverseMember(s[1..], y);
      assert s == [s[0]] + s[1..];
    }
  }

  /** The icon-cache keys `remove(intent.getComponent(), user)` is called
      with for these entries, in order. */
  function CacheKeys(s: seq<AppInfo>, user: UserHandle): (r: seq<ComponentKey>)
    requires forall k :: 0 <= k < |s| ==> s[k].intent.component.Some?
    ensures |r| == |s|
  {
    if s == [] then []
    else CacheKeys(s[..|s| - 1], user) + [ComponentKey(s[|s| - 1].intent.component.value, user)]
  }

  lemma CacheKeysAppend(s: seq<AppInfo>, x: AppInfo, user: UserHandle)
    requires forall k :: 0 <= k < |s| ==> s[k].intent.component.Some?
    requires x.intent.component.Some?
    ensures CacheKeys(s + [x], user) == CacheKeys(s, user) + [ComponentKey(x.intent.component.value, user)]
  {
    assert (s + [x])[..|s|] == s;
  }

  /** For well-formed entries of one user the cache keys are their component keys. */
  lemma {:induction false} CacheKeysAreComponentKeys(s: seq<AppInfo>, user: UserHandle)
    requires forall k :: 0 <= k < |s| ==> s[k].WellFormed() && s[k].user == user
    ensures forall k :: 0 <= k < |s| ==> s[k].intent.component.Some?
    ensures CacheKeys(s, user) == KeysOf(s)
  {
    assert forall k :: 0 <= k < |s| ==> s[k].intent.component.Some?;
    if s != [] {
      var init := s[..|s| - 1];
      assert forall k :: 0 <= k < |init| ==> init[k] == s[k];
      CacheKeysAreComponentKeys(init, user);
    }
  }

  lemma KeysOfAppend(s: seq<AppInfo>, x: AppInfo)
    ensures KeysOf(s + [x]) == KeysOf(s) + [x.ToComponentKey()]
  {
    assert (s + [x])[..|s|] == s;
  }

  lemma KeysOfConcat(a: seq<AppInfo>, b: seq<AppInfo>)
    ensures KeysOf(a + b) == KeysOf(a) + KeysOf(b)
    ensures forall k :: k in KeysOf(a + b) <==> k in KeysOf(a) || k in KeysOf(b)
  {
    var l, r := KeysOf(a + b), KeysOf(a) + KeysOf(b);
    assert |l| == |r|;
    forall j | 0 <= j < |l|
      ensures l[j] == r[j]
    {
      if j < |a| {
        assert (a + b)[j] == a[j];
      } else {
        assert (a + b)[j] == b[j - |a|];
      }
    }
  }

  /** The entry's title and icon are the cache's for its component and user. */
  predicate Loaded(cache: IconCache, a: AppInfo)
    reads a
  {
    a.title == Some(cache.lookup(a.ToComponentKey()).title)
    && a.iconBitmap == cache.lookup(a.ToComponentKey()).icon
  }

  /** Every entry of `apps` outside `touched` still has the title and icon
      recorded in `snap`. */
  predicate Untouched(apps: seq<AppInfo>, snap: map<AppInfo, (Option<string>, nat)>, touched: seq<AppInfo>)
    reads apps
  {
    forall a :: a in apps && a !in touched ==> a in snap && snap[a] == (a.title, a.iconBitmap)
  }

  /** What the removal loop leaves behind still satisfies the catalogue's
      invariant. */
  lemma RemovalKeepsValid(c: Criterion, orig: seq<AppInfo>)
    requires forall k :: 0 <= k < |orig| ==> orig[k].WellFormed()
    requires DistinctKeys(orig)
    ensures forall k :: 0 <= k < |Unselected(c, orig)| ==> Unselected(c, orig)[k].WellFormed()
    ensures DistinctKeys(Unselected(c, orig))
  {
    UnselectedDistinct(c, orig);
    forall k | 0 <= k < |Unselected(c, orig)|
      ensures Unselected(c, orig)[k].WellFormed()
    {
      UnselectedMember(c, orig, Unselected(c, orig)[k]);
    }
  }

  // ---------------------------------------------------------------------
  // The second pass of `updatePackage`, and `addPackage`

  /** `mAppFilter == null || mAppFilter.shouldShowApp(component, context)`. */
  predicate Admitted(filter: Option<ComponentName -> bool>, component: ComponentName)
  {
    filter.None? || filter.value(component)
  }

  /** The keys of the entries a pass over the platform's activity list adds
      through `add`, and the keys of the entries it finds already listed. */
  datatype Outcome = Outcome(added: seq<ComponentKey>, found: seq<ComponentKey>)

  /** One activity of the pass, given the keys listed when the pass began
      and what the earlier activities did: an activity whose key is listed
      by then is found, otherwise it is added unless the filter rejects it. */
  function Step(filter: Option<ComponentName -> bool>, present: seq<ComponentKey>, prev: Outcome,
                info: ActivityInfo, user: UserHandle): Outcome
  {
    var k := ComponentKey(info.componentName, user);
    if k in present || k in prev.added then Outcome(prev.added, prev.found + [k])
    else if Admitted(filter, info.componentName) then Outcome(prev.added + [k], prev.found)
    else prev
  }

  /** The whole pass over `ms`, one activity at a time in list order. */
  function Reconcile(filter: Option<ComponentName -> bool>, present: seq<ComponentKey>,
                     ms: seq<ActivityInfo>, user: UserHandle): Outcome
  {
    if ms == [] then Outcome([], [])
    else Step(filter, present, Reconcile(filter, present, ms[..|ms| - 1], user), ms[|ms| - 1], user)
  }

  lemma ReconcilePrefix(filter: Option<ComponentName -> bool>, present: seq<ComponentKey>,
                        ms: seq<ActivityInfo>, j: nat, user: UserHandle)
    requires j < |ms|
    ensures Reconcile(filter, present, ms[..j + 1], user)
         == Step(filter, present, Reconcile(filter, present, ms[..j], user), ms[j], user)
  {
    assert ms[..j + 1][..j] == ms[..j];
  }

  predicate NoDuplicates<T(==)>(s: seq<T>)
  {
    forall i, j :: 0 <= i < j < |s| ==> s[i] != s[j]
  }

  /** The pass adds each key at most once, never one already listed, and
      only keys of admitted activities it was given. */
  lemma {:induction false} ReconcileAddsFresh(filter: Option<ComponentName -> bool>, present: seq<ComponentKey>,
                                              ms: seq<ActivityInfo>, user: UserHandle)
    ensures NoDuplicates(Reconcile(filter, present, ms, user).added)
    ensures forall k :: k in Reconcile(filter, present, ms, user).added ==>
              k !in present && k.user == user && Admitted(filter, k.componentName)
              && HasActivity(ms, k.componentName)
  {
    if ms != [] {
      var init := ms[..|ms| - 1];
      var last := ms[|ms| - 1];
      ReconcileAddsFresh(filter, present, init, user);
      var prev := Reconcile(filter, present, init, user);
      forall k | k in prev.added
        ensures HasActivity(ms, k.componentName)
      {
        var j :| 0 <= j < |init| && init[j].componentName == k.componentName;
        assert ms[j] == init[j];
      }
      var key := ComponentKey(last.componentName, user);
      if !(key in present || key in prev.added) && Admitted(filter, last.componentName) {
        var added := prev.added + [key];
        assert Reconcile(filter, present, ms, user).added == added;
        forall i, j | 0 <= i < j < |added|
          ensures added[i] != added[j]
        {
          if j == |prev.added| {
            assert added[i] in prev.added;
          }
        }
        assert HasActivity(ms, key.componentName) by {
          assert ms[|ms| - 1].componentName == key.componentName;
        }
      }
    }
  }

  /** Every activity the filter admits is listed once the pass is over:
      either it was listed before or the pass added it. */
  lemma {:induction false} ReconcileCovers(filter: Option<ComponentName -> bool>, present: seq<ComponentKey>,
                                           ms: seq<ActivityInfo>, user: UserHandle)
    ensures var r := Reconcile(filter, present, ms, user);
      forall j :: 0 <= j < |ms| && Admitted(filter, ms[j].componentName) ==>
        ComponentKey(ms[j].componentName, user) in present + r.added
  {
    if ms != [] {
      var init := ms[..|ms| - 1];
      ReconcileCovers(filter, present, init, user);
      var prev := Reconcile(filter, present, init, user);
      var r := Reconcile(filter, present, ms, user);
      assert forall k :: k in prev.added ==> k in r.added;
      forall j | 0 <= j < |ms| && Admitted(filter, ms[j].componentName)
        ensures ComponentKey(ms[j].componentName, user) in present + r.added
      {
        if j < |init| {
          assert ms[j] == init[j];
        }
      }
    }
  }

  /** Every activity is either added, found or rejected by the filter. */
  lemma {:induction false} ReconcileCounts(filter: Option<ComponentName -> bool>, present: seq<ComponentKey>,
                                           ms: seq<ActivityInfo>, user: UserHandle)
    ensures var r := Reconcile(filter, present, ms, user);
      |r.added| + |r.found| <= |ms| && (filter.None? ==> |r.added| + |r.found| == |ms|)
  {
    if ms != [] {
      ReconcileCounts(filter, present, ms[..|ms| - 1], user);
    }
  }

  /** The catalogue's invariant: every entry launches its own component and
      no two entries share a component and a user. */
  predicate Catalogue(s: seq<AppInfo>)
  {
    (forall i :: 0 <= i < |s| ==> s[i].WellFormed()) && DistinctKeys(s)
  }

  /** An entry of the package that survives the first pass of
      `updatePackage` names a listed activity. */
  lemma KeptIsListed(packageName: string, user: UserHandle, matches: seq<ActivityInfo>,
                     before: seq<AppInfo>, a: AppInfo)
    requires forall i :: 0 <= i < |before| ==> before[i].WellFormed()
    requires a in Unselected(MissingFrom(packageName, user, Components(matches)), before)
    requires a.user == user && a.componentName.packageName == packageName
    ensures HasActivity(matches, a.componentName)
  {
    SelectionMember(MissingFrom(packageName, user, Components(matches)), before, a);
    var i :| 0 <= i < |before| && before[i] == a;
    assert a.intent.component == Some(a.componentName);
    assert a.componentName in Components(matches);
  }

  /** After both passes of `updatePackage` every entry of the package names
      an activity the platform lists: the first pass removed the others, and
      the second adds only listed activities. */
  lemma OnlyListedRemain(packageName: string, user: UserHandle, matches: seq<ActivityInfo>,
                         filter: Option<ComponentName -> bool>, before: seq<AppInfo>, apps: seq<AppInfo>)
    requires forall i :: 0 <= i < |before| ==> before[i].WellFormed()
    requires var kept := Unselected(MissingFrom(packageName, user, Components(matches)), before);
             |apps| >= |kept| && apps[..|kept|] == kept
             && KeysOf(apps[|kept|..]) == Reconcile(filter, KeysOf(kept), matches, user).added
    ensures forall k :: 0 <= k < |apps| && apps[k].user == user
                        && apps[k].componentName.packageName == packageName ==>
              HasActivity(matches, apps[k].componentName)
  {
    var kept := Unselected(MissingFrom(packageName, user, Components(matches)), before);
    var novel := Reconcile(filter, KeysOf(kept), matches, user).added;
    ReconcileAddsFresh(filter, KeysOf(kept), matches, user);
    forall k | 0 <= k < |apps| && apps[k].user == user && apps[k].componentName.packageName == packageName
      ensures HasActivity(matches, apps[k].componentName)
    {
      if k < |kept| {
        assert apps[k] == kept[k];
        KeptIsListed(packageName, user, matches, before, apps[k]);
      } else {
        assert novel[k - |kept|] == apps[k].ToComponentKey();
        assert apps[k].ToComponentKey() in novel;
      }
    }
  }

  // ---------------------------------------------------------------------
  // The catalogue

  class AllAppsList {
    var data: seq<AppInfo>
    var added: seq<AppInfo>
    var removed: seq<AppInfo>
    var modified: seq<AppInfo>
    const iconCache: IconCache
    const appFilter: Option<ComponentName -> bool>

    /** Every entry launches its own component and no two entries share a
        component and a user. */
    predicate Valid()
      reads this
    {
      Catalogue(data)
    }

    /** `mAppFilter == null || mAppFilter.shouldShowApp(component, context)`. */
    predicate Admits(component: ComponentName)
    {
      Admitted(appFilter, component)
    }

    /** `AllAppsList(iconCache, appFilter)`. */
    constructor (iconCache: IconCache, appFilter: Option<ComponentName -> bool>)
      ensures Valid()
      ensures data == [] && added == [] && removed == [] && modified == []
      ensures this.iconCache == iconCache && this.appFilter == appFilter
    {
      data := [];
      added := [];
      removed := [];
      modified := [];
      this.iconCache := iconCache;
      this.appFilter := appFilter;
    }

    /** `add(info, context)`: appended to `data` and `added` unless the filter
        rejects it or its component and user are already listed. */
    method Add(info: AppInfo)
      requires Valid() && info.WellFormed()
      modifies this
      ensures Valid()
      ensures if Admits(info.componentName) && !HasEntry(old(data), info.componentName, info.user)
              then data == old(data) + [info] && added == old(added) + [info]
              else data == old(data) && added == old(added)
      ensures removed == old(removed) && modified == old(modified)
    {
      if appFilter.Some? && !appFilter.value(info.componentName) {
        return;
      }
      var present := FindActivity(data, info.componentName, info.user);
      if present {
        return;
      }
      data := data + [info];
      added := added + [info];
      forall i, j | 0 <= i < j < |data|
        ensures data[i].ToComponentKey() != data[j].ToComponentKey()
      {
        if j == |data| - 1 {
          assert !(data[i].user == info.user && data[i].componentName == info.componentName);
        }
      }
    }

    /** `clear()`. */
    method Clear()
      modifies this
      ensures Valid()
      ensures data == [] && added == [] && removed == [] && modified == []
    {
      data := [];
      added := [];
      removed := [];
      modified := [];
    }

    /** The entry of `data` that launches `packageName/className` for `user`. */
    method FindApplicationInfoLocked(packageName: string, user: UserHandle, className: string)
      returns (r: Option<AppInfo>)
      requires Valid()
      ensures r.None? <==> !HasEntry(data, ComponentName(packageName, className), user)
      ensures r.Some? ==> r.value in data && r.value.user == user
                          && r.value.componentName == ComponentName(packageName, className)
    {
      var i := 0;
      while i < |data|
        invariant 0 <= i <= |data|
        invariant !HasEntry(data[..i], ComponentName(packageName, className), user)
      {
        var info := data[i];
        var component := info.intent.component.value;
        if user == info.user && packageName == component.packageName && className == component.className {
          return Some(info);
        }
        assert data[..i + 1] == data[..i] + [info];
        i := i + 1;
      }
      assert data[..i] == data;
      return None;
    }

    /** The backward index loop of `removePackage` and of the first pass of
        `updatePackage`: each selected entry is appended to `removed` (so in
        reverse list order) and deleted from `data`. */
    method RemoveSelected(c: Criterion, activities: seq<ActivityInfo>)
      requires Valid() && (c.InPackage? || (c.MissingFrom? && c.listed == Components(activities)))
      modifies this
      ensures Valid()
      ensures data == Unselected(c, old(data))
      ensures removed == old(removed) + Reverse(Selected(c, old(data)))
      ensures added == old(added) && modified == old(modified)
    {
      RemovalKeepsValid(c, data);
      data, removed := RemoveFrom(c, activities, data, removed);
    }

    /** The backward index loop of `updatePackage` for a package without
        activities: like `RemoveSelected`, and each removed entry is also
        evicted from the icon cache. */
    method RemoveAndEvictSelected(c: Criterion)
      requires Valid() && c.InPackage?
      modifies this, iconCache
      ensures Valid()
      ensures data == Unselected(c, old(data))
      ensures removed == old(removed) + Reverse(Selected(c, old(data)))
      ensures added == old(added) && modified == old(modified)
      ensures SelectedHaveComponents(c, Reverse(Selected(c, old(data))))
      ensures iconCache.evicted == old(iconCache.evicted) + CacheKeys(Reverse(Selected(c, old(data))), c.user)
    {
      RemovalKeepsValid(c, data);
      data, removed := RemoveAndEvictFrom(c, data, removed, iconCache);
    }

    /** `updatePackageFlags(pkgFilter, user, op)`: a backward index loop that
        applies `op` to the disabled flags of every entry of `user` whose
        package the filter matches, appending each such entry to `modified`. */
    method UpdatePackageFlags(pkgFilter: string -> bool, user: UserHandle, op: bv32 -> bv32)
      requires Valid()
      modifies `modified, set k | 0 <= k < |data| :: data[k]`isDisabled
      ensures Valid()
      ensures modified == old(modified) + Reverse(Selected(FlagTarget(pkgFilter, user), data))
      ensures forall k :: 0 <= k < |data| ==>
                data[k].isDisabled == FlagUpdate(Selects(FlagTarget(pkgFilter, user), data[k]), op,
                                                 old(data[k].isDisabled))
    {
      modified := ApplyFlagOp(FlagTarget(pkgFilter, user), op, data, modified);
    }

    /** `updateIconsAndLabels(packages, user, outUpdates)`: every entry of
        `user` whose package is among `packages` reloads its title and icon
        from the cache and is appended to the caller's list, in list order. */
    method UpdateIconsAndLabels(packages: set<string>, user: UserHandle, outUpdates: seq<AppInfo>)
      returns (updates: seq<AppInfo>)
      requires Valid()
      modifies set k | 0 <= k < |data| :: data[k]`title, set k | 0 <= k < |data| :: data[k]`iconBitmap
      ensures Valid()
      ensures updates == outUpdates + Selected(AmongPackages(packages, user), data)
      ensures forall k :: 0 <= k < |data| ==>
                if Selects(AmongPackages(packages, user), data[k]) then
                  data[k].title == Some(iconCache.lookup(data[k].ToComponentKey()).title)
                  && data[k].iconBitmap == iconCache.lookup(data[k].ToComponentKey()).icon
                else unchanged(data[k])
    {
      updates := RefreshSelected(AmongPackages(packages, user), iconCache, data, outUpdates);
    }

    /** `addPackage(context, packageName, user)`: every activity the platform
        lists for the package goes through `add`, in list order. */
    method AddPackage(matches: seq<ActivityInfo>, user: UserHandle, quietModeEnabled: bool, serialNumber: int)
      requires Valid()
      modifies this
      ensures Valid()
      ensures |data| >= |old(data)| && data[..|old(data)|] == old(data)
      ensures KeysOf(data[|old(data)|..]) == Reconcile(appFilter, KeysOf(old(data)), matches, user).added
      ensures added == old(added) + data[|old(data)|..]
      ensures removed == old(removed) && modified == old(modified)
      // The new entries are fresh and hold the cache's title and icon.
      ensures forall k :: |old(data)| <= k < |data| ==> fresh(data[k]) && Loaded(iconCache, data[k])
    {
      ghost var d0 := data;
      // The entries added so far.
      ghost var born: seq<AppInfo> := [];
      for j := 0 to |matches|
        invariant Valid()
        invariant data == d0 + born && added == old(added) + born
        invariant KeysOf(born) == Reconcile(appFilter, KeysOf(d0), matches[..j], user).added
        invariant removed == old(removed) && modified == old(modified)
        invariant forall k :: 0 <= k < |born| ==> fresh(born[k]) && Loaded(iconCache, born[k])
      {
        ReconcilePrefix(appFilter, KeysOf(d0), matches, j, user);
        born := AddPackageStep(matches[j], user, quietModeEnabled, serialNumber, d0, old(added), born,
                               Reconcile(appFilter, KeysOf(d0), matches[..j], user));
      }
      assert matches[..|matches|] == matches;
      assert data[|d0|..] == born;
      assert data[..|d0|] == d0;
    }

    /** One activity of `addPackage`: the entries added so far are `born`,
        and `prev` is the pass's outcome up to here. */
    method AddPackageStep(info: ActivityInfo, user: UserHandle, quietModeEnabled: bool, serialNumber: int,
                          ghost d0: seq<AppInfo>, ghost a0: seq<AppInfo>, ghost born: seq<AppInfo>, ghost prev: Outcome)
      returns (ghost born': seq<AppInfo>)
      requires Valid()
      requires data == d0 + born && added == a0 + born
      requires KeysOf(born) == prev.added
      modifies this
      ensures Valid()
      ensures data == d0 + born' && added == a0 + born'
      ensures removed == old(removed) && modified == old(modified)
      ensures KeysOf(born') == Step(appFilter, KeysOf(d0), prev, info, user).added
      ensures |born| <= |born'| <= |born| + 1
      ensures forall k :: 0 <= k < |born| ==> born'[k] == born[k]
      ensures forall k :: |born| <= k < |born'| ==> fresh(born'[k]) && Loaded(iconCache, born'[k])
    {
      KeysOfConcat(d0, born);
      HasEntryIffKey(data, info.componentName, user);
      ghost var k := ComponentKey(info.componentName, user);
      assert HasEntry(data, info.componentName, user) <==> k in KeysOf(d0) || k in prev.added;
      ghost var isNew := Admits(info.componentName) && !HasEntry(data, info.componentName, user);
      ghost var app := AddNew(info, user, quietModeEnabled, serialNumber);
      if isNew {
        AppendAssoc(d0, born, app);
        AppendAssoc(a0, born, app);
        KeysOfAppend(born, app);
        born' := born + [app];
        assert born'[|born|] == app;
      } else {
        born' := born;
      }
    }

    /** `add(new AppInfo(context, info, user, mIconCache), context)`: a fresh
        entry, loaded from the cache, goes through `add`. */
    method AddNew(info: ActivityInfo, user: UserHandle, quietModeEnabled: bool, serialNumber: int)
      returns (ghost app: AppInfo)
      requires Valid()
      modifies this
      ensures Valid()
      ensures fresh(app) && Loaded(iconCache, app)
      ensures app.componentName == info.componentName && app.user == user
      ensures if Admits(info.componentName) && !HasEntry(old(data), info.componentName, user)
              then data == old(data) + [app] && added == old(added) + [app]
              else data == old(data) && added == old(added)
      ensures removed == old(removed) && modified == old(modified)
    {
      var entry := new AppInfo(info, user, iconCache, quietModeEnabled, serialNumber);
      Add(entry);
      app := entry;
    }

    /** One activity of the second pass of `updatePackage`: an entry already
        listed for it reloads its title and icon and is appended to
        `modified`; otherwise a new entry goes through `add`. */
    method AddOrRefresh(info: ActivityInfo, user: UserHandle, quietModeEnabled: bool, serialNumber: int)
      requires Valid()
      modifies this, set k | 0 <= k < |data| :: data[k]`title, set k | 0 <= k < |data| :: data[k]`iconBitmap
      ensures Valid()
      ensures removed == old(removed)
      // Only the entry listed for the activity, if any, changes: it holds the cache's title and icon.
      ensures forall a :: a in old(data) ==>
                if a.ToComponentKey() == ComponentKey(info.componentName, user) then Loaded(iconCache, a)
                else unchanged(a)
      // Already listed: that entry is refreshed.
      ensures ComponentKey(info.componentName, user) in KeysOf(old(data)) ==>
                data == old(data) && added == old(added)
                && |modified| == |old(modified)| + 1 && modified == old(modified) + [modified[|old(modified)|]]
                && modified[|old(modified)|] in old(data)
                && modified[|old(modified)|].ToComponentKey() == ComponentKey(info.componentName, user)
                && Loaded(iconCache, modified[|old(modified)|])
      // Not listed and admitted: a new entry is added.
      ensures ComponentKey(info.componentName, user) !in KeysOf(old(data)) && Admits(info.componentName) ==>
                modified == old(modified)
                && |data| == |old(data)| + 1 && data == old(data) + [data[|old(data)|]]
                && data[|old(data)|].ToComponentKey() == ComponentKey(info.componentName, user)
                && fresh(data[|old(data)|]) && added == old(added) + [data[|old(data)|]]
      // Not listed and rejected: nothing changes.
      ensures ComponentKey(info.componentName, user) !in KeysOf(old(data)) && !Admits(info.componentName) ==>
                modified == old(modified) && data == old(data) && added == old(added)
    {
      var found := FindApplicationInfoLocked(info.componentName.packageName, user, info.componentName.className);
      HasEntryIffKey(data, info.componentName, user);
      if found.None? {
        var app := new AppInfo(info, user, iconCache, quietModeEnabled, serialNumber);
        Add(app);
      } else {
        var app := found.value;
        forall a | a in data && a.ToComponentKey() == ComponentKey(info.componentName, user)
          ensures a == app
        {
          SameKeySameEntry(data, a, app);
        }
        app.LoadTitleAndIcon(iconCache);
        modified := modified + [app];
      }
    }

    /** One step of `RefreshPass`: `AddOrRefresh` for `info`, with the
        entries added so far (`born`) and refreshed so far (`touched`)
        tracked against `Step`. */
    method ReconcileStep(info: ActivityInfo, user: UserHandle, quietModeEnabled: bool, serialNumber: int,
                         ghost d0: seq<AppInfo>, ghost a0: seq<AppInfo>, ghost m0: seq<AppInfo>,
                         ghost born: seq<AppInfo>, ghost touched: seq<AppInfo>, ghost prev: Outcome,
                         ghost snap: map<AppInfo, (Option<string>, nat)>)
      returns (ghost born': seq<AppInfo>, ghost touched': seq<AppInfo>)
      requires Valid()
      requires data == d0 + born && added == a0 + born && modified == m0 + touched
      requires Outcome(KeysOf(born), KeysOf(touched)) == prev
      requires forall a :: a in touched ==> a in data && Loaded(iconCache, a)
      requires Untouched(d0, snap, touched)
      modifies this, set k | 0 <= k < |data| :: data[k]`title, set k | 0 <= k < |data| :: data[k]`iconBitmap
      ensures Valid()
      ensures data == d0 + born' && added == a0 + born' && modified == m0 + touched' && removed == old(removed)
      ensures Outcome(KeysOf(born'), KeysOf(touched')) == Step(appFilter, KeysOf(d0), prev, info, user)
      ensures |born| <= |born'| <= |born| + 1
      ensures forall k :: 0 <= k < |born| ==> born'[k] == born[k]
      ensures forall k :: |born| <= k < |born'| ==> fresh(born'[k])
      ensures forall a :: a in touched' ==> a in data && Loaded(iconCache, a)
      ensures Untouched(d0, snap, touched')
    {
      ghost var key := ComponentKey(info.componentName, user);
      KeysOfConcat(d0, born);
      ghost var isFound := key in KeysOf(data);
      ghost var isNew := !isFound && Admits(info.componentName);
      ghost var dataBefore, modifiedBefore := data, modified;
      AddOrRefresh(info, user, quietModeEnabled, serialNumber);
      born', touched' := born, touched;
      if isFound {
        var app := modified[|modifiedBefore|];
        forall a | a in dataBefore && a.ToComponentKey() == key
          ensures a == app
        {
          SameKeySameEntry(dataBefore, a, app);
        }
        AppendAssoc(m0, touched, app);
        KeysOfAppend(touched, app);
        touched' := touched + [app];
        assert Loaded(iconCache, app);
        forall a | a in touched'
          ensures a in data && Loaded(iconCache, a)
        {
          if a != app {
            assert a in touched && a in dataBefore && a.ToComponentKey() != key;
          }
        }
      } else if isNew {
        var app := data[|dataBefore|];
        AppendAssoc(d0, born, app);
        AppendAssoc(a0, born, app);
        KeysOfAppend(born, app);
        born' := born + [app];
        assert fresh(born'[|born|]);
      }
      forall a | a in d0 && a !in touched'
        ensures a in snap && snap[a] == (a.title, a.iconBitmap)
      {
        assert a !in touched && a in dataBefore;
        assert a.ToComponentKey() != key;
      }
    }

    /** The loop of the second pass of `updatePackage`, with the entries it
        adds (`born`) and those it finds and refreshes (`touched`); `snap`
        records every entry's title and icon on entry. */
    method RefreshPass(matches: seq<ActivityInfo>, user: UserHandle, quietModeEnabled: bool, serialNumber: int,
                       ghost snap: map<AppInfo, (Option<string>, nat)>)
      returns (ghost born: seq<AppInfo>, ghost touched: seq<AppInfo>)
      requires Valid() && Untouched(data, snap, [])
      modifies this, set k | 0 <= k < |data| :: data[k]`title, set k | 0 <= k < |data| :: data[k]`iconBitmap
      ensures Valid()
      ensures data == old(data) + born && added == old(added) + born
      ensures modified == old(modified) + touched && removed == old(removed)
      ensures Outcome(KeysOf(born), KeysOf(touched)) == Reconcile(appFilter, KeysOf(old(data)), matches, user)
      ensures forall a :: a in touched ==> a in data && Loaded(iconCache, a)
      ensures Untouched(old(data), snap, touched)
    {
      ghost var d0 := data;
      ghost var outcome := Outcome([], []);
      born, touched := [], [];
      for j := 0 to |matches|
        invariant Valid()
        invariant data == d0 + born && added == old(added) + born
        invariant modified == old(modified) + touched && removed == old(removed)
        invariant forall k :: 0 <= k < |born| ==> fresh(born[k])
        invariant outcome == Reconcile(appFilter, KeysOf(d0), matches[..j], user)
        invariant Outcome(KeysOf(born), KeysOf(touched)) == outcome
        invariant forall a :: a in touched ==> a in data && Loaded(iconCache, a)
        invariant Untouched(d0, snap, touched)
      {
        ReconcilePrefix(appFilter, KeysOf(d0), matches, j, user);
        born, touched := ReconcileStep(matches[j], user, quietModeEnabled, serialNumber, d0, old(added),
                                       old(modified), born, touched, outcome, snap);
        outcome := Step(appFilter, KeysOf(d0), outcome, matches[j], user);
      }
      assert matches[..|matches|] == matches;
    }

    /** The second pass of `updatePackage`: `AddOrRefresh` for every listed
        activity, in list order. */
    method AddOrRefreshAll(matches: seq<ActivityInfo>, user: UserHandle, quietModeEnabled: bool, serialNumber: int)
      requires Valid()
      modifies this, set k | 0 <= k < |data| :: data[k]`title, set k | 0 <= k < |data| :: data[k]`iconBitmap
      ensures Valid()
      ensures |data| >= |old(data)| && data[..|old(data)|] == old(data)
      ensures KeysOf(data[|old(data)|..]) == Reconcile(appFilter, KeysOf(old(data)), matches, user).added
      ensures added == old(added) + data[|old(data)|..]
      ensures |modified| >= |old(modified)| && modified[..|old(modified)|] == old(modified)
      ensures KeysOf(modified[|old(modified)|..]) == Reconcile(appFilter, KeysOf(old(data)), matches, user).found
      ensures removed == old(removed)
      // The entries found are refreshed from the cache; no other entry changes.
      ensures forall a :: a in modified[|old(modified)|..] ==> a in data && Loaded(iconCache, a)
      ensures forall a :: a in old(data) && a !in modified[|old(modified)|..] ==> unchanged(a)
    {
      ghost var d0, m0 := data, modified;
      ghost var snap := map a: AppInfo | a in d0 :: (a.title, a.iconBitmap);
      ghost var born, touched := RefreshPass(matches, user, quietModeEnabled, serialNumber, snap);
      assert data[|d0|..] == born && data[..|d0|] == d0;
      assert modified[|m0|..] == touched && modified[..|m0|] == m0;
      forall a | a in d0 && a !in touched
        ensures unchanged(a)
      {
        assert snap[a] == (a.title, a.iconBitmap);
      }
    }

    /** `updatePackage` for a package the platform still lists activities
        for: the entries whose component is no longer listed are removed, and
        then each listed activity is refreshed when an entry has it and added
        otherwise. */
    method UpdateListedPackage(packageName: string, user: UserHandle, matches: seq<ActivityInfo>,
                               quietModeEnabled: bool, serialNumber: int)
      requires Valid() && |matches| > 0
      modifies this, set k | 0 <= k < |data| :: data[k]`title, set k | 0 <= k < |data| :: data[k]`iconBitmap
      ensures Valid()
      ensures var gone := MissingFrom(packageName, user, Components(matches));
              var kept := Unselected(gone, old(data));
              var outcome := Reconcile(appFilter, KeysOf(kept), matches, user);
              removed == old(removed) + Reverse(Selected(gone, old(data)))
              && |data| >= |kept| && data[..|kept|] == kept
              && KeysOf(data[|kept|..]) == outcome.added
              && added == old(added) + data[|kept|..]
              && |modified| >= |old(modified)| && modified[..|old(modified)|] == old(modified)
              && KeysOf(modified[|old(modified)|..]) == outcome.found
      ensures forall a :: a in modified[|old(modified)|..] ==> a in data && Loaded(iconCache, a)
      ensures forall a :: a in old(data) && a !in modified[|old(modified)|..] ==> unchanged(a)
      ensures forall k :: 0 <= k < |data| && data[k].user == user
                          && data[k].componentName.packageName == packageName ==>
                HasActivity(matches, data[k].componentName)
    {
      var gone := MissingFrom(packageName, user, Components(matches));
      ghost var before := data;
      RemoveSelected(gone, matches);
      ghost var kept := data;
      forall k | 0 <= k < |kept|
        ensures kept[k] in before
      {
        SelectionMember(gone, before, kept[k]);
      }
      AddOrRefreshAll(matches, user, quietModeEnabled, serialNumber);
      OnlyListedRemain(packageName, user, matches, appFilter, before, data);
    }

    /** `updatePackage` for a package without activities: every entry of the
        package is removed and evicted from the icon cache. */
    method UpdateUnlistedPackage(packageName: string, user: UserHandle)
      requires Valid()
      modifies this, iconCache
      ensures Valid()
      ensures data == Unselected(InPackage(packageName, user), old(data))
      ensures removed == old(removed) + Reverse(Selected(InPackage(packageName, user), old(data)))
      ensures added == old(added) && modified == old(modified)
      ensures iconCache.evicted == old(iconCache.evicted)
                                   + KeysOf(Reverse(Selected(InPackage(packageName, user), old(data))))
    {
      ghost var before := data;
      RemoveAndEvictSelected(InPackage(packageName, user));
      ghost var gone := Reverse(Selected(InPackage(packageName, user), before));
      forall k | 0 <= k < |gone|
        ensures gone[k].WellFormed() && gone[k].user == user
      {
        ReverseMember(Selected(InPackage(packageName, user), before), gone[k]);
        SelectionMember(InPackage(packageName, user), before, gone[k]);
      }
      CacheKeysAreComponentKeys(gone, user);
    }

    /** `updatePackage(context, packageName, user)`, given the activities the
        platform lists for the package. With none, every entry of the package
        is removed and evicted from the icon cache. Otherwise the entries whose
        component is no longer listed are removed, and then each listed
        activity is refreshed when an entry has it and added otherwise. */
    method UpdatePackage(packageName: string, user: UserHandle, matches: seq<ActivityInfo>,
                         quietModeEnabled: bool, serialNumber: int)
      requires Valid()
      modifies this, iconCache, set k | 0 <= k < |data| :: data[k]`title, set k | 0 <= k < |data| :: data[k]`iconBitmap
      ensures Valid()
      ensures |modified| >= |old(modified)| && modified[..|old(modified)|] == old(modified)
      // The entries found are refreshed from the cache; no other entry changes.
      ensures forall a :: a in modified[|old(modified)|..] ==> a in data && Loaded(iconCache, a)
      ensures forall a :: a in old(data) && a !in modified[|old(modified)|..] ==> unchanged(a)
      ensures |matches| == 0 ==>
                data == Unselected(InPackage(packageName, user), old(data))
                && removed == old(removed) + Reverse(Selected(InPackage(packageName, user), old(data)))
                && added == old(added) && modified == old(modified)
                && iconCache.evicted == old(iconCache.evicted)
                                        + KeysOf(Reverse(Selected(InPackage(packageName, user), old(data))))
      ensures |matches| > 0 ==>
                var gone := MissingFrom(packageName, user, Components(matches));
                var kept := Unselected(gone, old(data));
                var outcome := Reconcile(appFilter, KeysOf(kept), matches, user);
                removed == old(removed) + Reverse(Selected(gone, old(data)))
                && |data| >= |kept| && data[..|kept|] == kept
                && KeysOf(data[|kept|..]) == outcome.added
                && added == old(added) + data[|kept|..]
                && KeysOf(modified[|old(modified)|..]) == outcome.found
                && iconCache.evicted == old(iconCache.evicted)
      ensures |matches| > 0 ==>
                forall k :: 0 <= k < |data| && data[k].user == user
                            && data[k].componentName.packageName == packageName ==>
                  HasActivity(matches, data[k].componentName)
    {
      if |matches| > 0 {
        UpdateListedPackage(packageName, user, matches, quietModeEnabled, serialNumber);
      } else {
        UpdateUnlistedPackage(packageName, user);
        assert modified[|old(modified)|..] == [];
      }
    }

    /** `removePackage(packageName, user)`. */
    method RemovePackage(packageName: string, user: UserHandle)
      requires Valid()
      modifies this
      ensures Valid()
      ensures data == Unselected(InPackage(packageName, user), old(data))
      ensures removed == old(removed) + Reverse(Selected(InPackage(packageName, user), old(data)))
      ensures added == old(added) && modified == old(modified)
      ensures forall k :: 0 <= k < |data| ==>
                !(data[k].user == user && data[k].componentName.packageName == packageName)
    {
      ghost var orig := data;
      RemoveSelected(InPackage(packageName, user), []);
      forall k | 0 <= k < |data|
        ensures !(data[k].user == user && data[k].componentName.packageName == packageName)
      {
        UnselectedMember(InPackage(packageName, user), orig, data[k]);
      }
    }
  }

  /** The loop shared by `RemoveSelected`: walks `apps` from the back,
      deleting each selected entry and appending it to `dropped`. */
  method RemoveFrom(c: Criterion, activities: seq<ActivityInfo>, orig: seq<AppInfo>, removed0: seq<AppInfo>)
    returns (apps: seq<AppInfo>, dropped: seq<AppInfo>)
    requires c.InPackage? || (c.MissingFrom? && c.listed == Components(activities))
    ensures apps == Unselected(c, orig)
    ensures dropped == removed0 + Reverse(Selected(c, orig))
  {
    apps, dropped := orig, removed0;
    // The processed suffix `orig[i..]`, split into what stays and what went.
    ghost var kept: seq<AppInfo> := [];
    ghost var gone: seq<AppInfo> := [];
    var i := |apps|;
    while i > 0
      invariant 0 <= i <= |orig|
      invariant kept == Unselected(c, orig[i..]) && gone == Selected(c, orig[i..])
      invariant apps == orig[..i] + kept
      invariant dropped == removed0 + Reverse(gone)
    {
      i := i - 1;
      DeleteAt(apps, orig, kept, i);
      var info := apps[i];
      var selected := IsSelected(c, activities, info);
      RemovalStep(c, orig, i, selected);
      if selected {
        ReverseCons(info, gone);
        AppendAssoc(removed0, Reverse(gone), info);
        dropped := dropped + [info];
        apps := apps[..i] + apps[i + 1..];
        gone := [info] + gone;
      } else {
        kept := [info] + kept;
      }
    }
  }

  /** The loop of `RemoveAndEvictSelected`: as `RemoveFrom`, and each
      deleted entry's component is removed from `cache`. */
  method RemoveAndEvictFrom(c: Criterion, orig: seq<AppInfo>, removed0: seq<AppInfo>, cache: IconCache)
    returns (apps: seq<AppInfo>, dropped: seq<AppInfo>)
    requires c.InPackage?
    modifies cache
    ensures apps == Unselected(c, orig)
    ensures dropped == removed0 + Reverse(Selected(c, orig))
    ensures SelectedHaveComponents(c, Reverse(Selected(c, orig)))
    ensures cache.evicted == old(cache.evicted) + CacheKeys(Reverse(Selected(c, orig)), c.user)
  {
    apps, dropped := orig, removed0;
    ghost var kept: seq<AppInfo> := [];
    ghost var gone: seq<AppInfo> := [];
    var i := |apps|;
    while i > 0
      invariant 0 <= i <= |orig|
      invariant kept == Unselected(c, orig[i..]) && gone == Selected(c, orig[i..])
      invariant apps == orig[..i] + kept
      invariant dropped == removed0 + Reverse(gone)
      invariant SelectedHaveComponents(c, Reverse(gone))
      invariant cache.evicted == old(cache.evicted) + CacheKeys(Reverse(gone), c.user)
    {
      i := i - 1;
      DeleteAt(apps, orig, kept, i);
      var info := apps[i];
      var selected := IsSelected(c, [], info);
      RemovalStep(c, orig, i, selected);
      if selected {
        ReverseCons(info, gone);
        AppendAssoc(removed0, Reverse(gone), info);
        CacheKeysAppend(Reverse(gone), info, c.user);
        dropped := dropped + [info];
        cache.Remove(info.intent.component.value, c.user);
        apps := apps[..i] + apps[i + 1..];
        gone := [info] + gone;
      } else {
        kept := [info] + kept;
      }
    }
  }

  /** The disabled flags an entry ends with: `op` applied when selected. */
  function FlagUpdate(selected: bool, op: bv32 -> bv32, was: bv32): bv32
  {
    if selected then op(was) else was
  }

  /** The loop of `UpdatePackageFlags`, walking `apps` from the back. */
  method ApplyFlagOp(c: Criterion, op: bv32 -> bv32, apps: seq<AppInfo>, mods0: seq<AppInfo>)
    returns (mods: seq<AppInfo>)
    requires c.FlagTarget? && DistinctKeys(apps)
    modifies set k | 0 <= k < |apps| :: apps[k]`isDisabled
    ensures mods == mods0 + Reverse(Selected(c, apps))
    ensures forall k :: 0 <= k < |apps| ==>
              apps[k].isDisabled == FlagUpdate(Selects(c, apps[k]), op, old(apps[k].isDisabled))
  {
    // What each entry's flags are before the loop and after it.
    ghost var was := seq(|apps|, k requires 0 <= k < |apps| reads apps => apps[k].isDisabled);
    ghost var goal := seq(|apps|, k requires 0 <= k < |apps| => FlagUpdate(Selects(c, apps[k]), op, was[k]));
    // The entries of the processed suffix `apps[i..]` that were flagged.
    ghost var flagged: seq<AppInfo> := [];
    mods := mods0;
    var i := |apps|;
    while i > 0
      invariant 0 <= i <= |apps|
      invariant forall k :: i <= k < |apps| ==> apps[k].isDisabled == goal[k]
      invariant forall k :: 0 <= k < i ==> apps[k].isDisabled == was[k]
      invariant flagged == Selected(c, apps[i..])
      invariant mods == mods0 + Reverse(flagged)
    {
      i := i - 1;
      var info := apps[i];
      var component := info.intent.component;
      var selected := info.user == c.user && component.Some? && c.pkgFilter(component.value.packageName);
      RemovalStep(c, apps, i, selected);
      DistinctObjects(apps, i);
      ghost var next := FlagUpdate(selected, op, info.isDisabled);
      assert next == goal[i];
      if selected {
        ReverseCons(info, flagged);
        AppendAssoc(mods0, Reverse(flagged), info);
        info.isDisabled := op(info.isDisabled);
        mods := mods + [info];
        flagged := [info] + flagged;
      }
      assert info.isDisabled == next;
    }
  }

  /** The loop of `UpdateIconsAndLabels`, walking `apps` from the front. */
  method RefreshSelected(c: Criterion, cache: IconCache, apps: seq<AppInfo>, out0: seq<AppInfo>)
    returns (updates: seq<AppInfo>)
    requires c.AmongPackages? && DistinctKeys(apps)
    modifies set k | 0 <= k < |apps| :: apps[k]`title, set k | 0 <= k < |apps| :: apps[k]`iconBitmap
    ensures updates == out0 + Selected(c, apps)
    ensures forall k :: 0 <= k < |apps| ==>
              if Selects(c, apps[k]) then
                apps[k].title == Some(cache.lookup(apps[k].ToComponentKey()).title)
                && apps[k].iconBitmap == cache.lookup(apps[k].ToComponentKey()).icon
              else unchanged(apps[k])
  {
    updates := out0;
    for i := 0 to |apps|
      invariant updates == out0 + Selected(c, apps[..i])
      invariant forall k :: 0 <= k < i ==>
                  if Selects(c, apps[k]) then
                    apps[k].title == Some(cache.lookup(apps[k].ToComponentKey()).title)
                    && apps[k].iconBitmap == cache.lookup(apps[k].ToComponentKey()).icon
                  else unchanged(apps[k])
      invariant forall k :: i <= k < |apps| ==> unchanged(apps[k])
    {
      var info := apps[i];
      assert apps[..i + 1] == apps[..i] + [info];
      SelectedAppend(c, apps[..i], info);
      DistinctObjects(apps, i);
      if info.user == c.user && info.componentName.packageName in c.packages {
        AppendAssoc(out0, Selected(c, apps[..i]), info);
        info.LoadTitleAndIcon(cache);
        updates := updates + [info];
      }
    }
    assert apps[..|apps|] == apps;
  }

  /** Whether `c` selects `info`, asking `findActivity` for `MissingFrom`. */
  method IsSelected(c: Criterion, activities: seq<ActivityInfo>, info: AppInfo) returns (b: bool)
    requires c.InPackage? || (c.MissingFrom? && c.listed == Components(activities))
    ensures b == Selects(c, info)
  {
    if c.InPackage? {
      b := info.user == c.user && info.intent.component.Some?
           && c.packageName == info.intent.component.value.packageName;
    } else {
      if c.user == info.user && info.intent.component.Some?
         && c.packageName == info.intent.component.value.packageName {
        var listed := FindActivityIn(activities, info.intent.component.value);
        b := !listed;
      } else {
        b := false;
      }
    }
  }

  /** `findActivity(apps, component, user)`. */
  method FindActivity(apps: seq<AppInfo>, component: ComponentName, user: UserHandle) returns (found: bool)
    ensures found <==> HasEntry(apps, component, user)
  {
    var n := |apps|;
    for i := 0 to n
      invariant !HasEntry(apps[..i], component, user)
    {
      var info := apps[i];
      if info.user == user && info.componentName == component {
        return true;
      }
      assert apps[..i + 1] == apps[..i] + [info];
    }
    assert apps[..n] == apps;
    return false;
  }

  /** `findActivity(activities, component)`. */
  method FindActivityIn(activities: seq<ActivityInfo>, component: ComponentName) returns (found: bool)
    ensures found <==> HasActivity(activities, component)
  {
    for i := 0 to |activities|
      invariant forall k :: 0 <= k < i ==> activities[k].componentName != component
    {
      if activities[i].componentName == component {
        return true;
      }
    }
    return false;
  }
}
