/** `WidgetsModel`: the widgets and shortcut-configuration activities the
    widget picker shows, grouped per package in a multimap from a
    `PackageItemInfo` to its items. The multimap is keyed by object identity
    (`PackageItemInfo` does not override `equals`), so it is modelled as a
    map from `PackageItemInfo` objects to sequences of items. */
module WidgetsModel {
  import opened Java
  import opened Platform

  /** A `ShortcutConfigActivityInfo`: an activity that configures a shortcut. */
  datatype ShortcutConfigInfo = ShortcutConfigInfo(componentName: ComponentName, user: UserHandle)

  /** `WidgetItem`: a widget (with its spans) or a shortcut-configuration
      activity (without). */
  datatype WidgetItem = WidgetItem(componentName: ComponentName, user: UserHandle, widgetInfo: Option<WidgetSpans>)

  /** `new WidgetItem(LauncherAppWidgetProviderInfo.fromProviderInfo(info), ...)`. */
  function FromProvider(info: ProviderInfo): WidgetItem
  {
    WidgetItem(info.provider, info.profile, Some(info.spans))
  }

  /** `new WidgetItem(info)` for a shortcut-configuration activity. */
  function FromShortcut(info: ShortcutConfigInfo): WidgetItem
  {
    WidgetItem(info.componentName, info.user, None)
  }

  /** The items built from `providers`, in order. */
  function ProviderItems(providers: seq<ProviderInfo>): (r: seq<WidgetItem>)
    ensures |r| == |providers|
    ensures forall i :: 0 <= i < |providers| ==> r[i] == FromProvider(providers[i])
  {
    if providers == [] then []
    else ProviderItems(providers[..|providers| - 1]) + [FromProvider(providers[|providers| - 1])]
  }

  /** The items built from `shortcuts`, in order. */
  function ShortcutItems(shortcuts: seq<ShortcutConfigInfo>): (r: seq<WidgetItem>)
    ensures |r| == |shortcuts|
    ensures forall i :: 0 <= i < |shortcuts| ==> r[i] == FromShortcut(shortcuts[i])
  {
    if shortcuts == [] then []
    else ShortcutItems(shortcuts[..|shortcuts| - 1]) + [FromShortcut(shortcuts[|shortcuts| - 1])]
  }

  /** `PackageItemInfo`: the header of one package's group. */
  class PackageItemInfo {
    const packageName: string
    var user: UserHandle

    /** `new PackageItemInfo(packageName)` followed by the assignment of the
        group's first user. */
    constructor (packageName: string, user: UserHandle)
      ensures this.packageName == packageName && this.user == user
    {
      this.packageName := packageName;
      this.user := user;
    }
  }

  /** `multimap.get(p)` on a multimap that may have no list for `p`. */
  function Get(m: map<PackageItemInfo, seq<WidgetItem>>, p: PackageItemInfo): seq<WidgetItem>
  {
    if p in m then m[p] else []
  }

  // ---------------------------------------------------------------------
  // Removing the items of one package and user from a group

  /** Whether `item` is of the key's package and user. */
  predicate Matches(item: WidgetItem, key: PackageUserKey)
  {
    item.componentName.packageName == key.packageName && item.user == key.user
  }

  /** The items of `items` that do not match `key`, in order. */
  function Unmatched(items: seq<WidgetItem>, key: PackageUserKey): seq<WidgetItem>
  {
    if items == [] then []
    else
      var last := items[|items| - 1];
      Unmatched(items[..|items| - 1], key) + (if Matches(last, key) then [] else [last])
  }

  /** An item survives exactly when it was there and does not match. */
  lemma {:induction false} UnmatchedMember(items: seq<WidgetItem>, key: PackageUserKey, x: WidgetItem)
    ensures x in Unmatched(items, key) <==> x in items && !Matches(x, key)
  {
    if items != [] {
      var init := items[..|items| - 1];
      UnmatchedMember(init, key, x);
      assert items == init + [items[|items| - 1]];
    }
  }

  /** The iterator loop of `setWidgetsAndShortcuts` that removes, from the
      reused group, the items of the key's package and user. */
  method Prune(items: seq<WidgetItem>, key: PackageUserKey) returns (kept: seq<WidgetItem>)
    ensures kept == Unmatched(items, key)
  {
    kept := [];
    var i := 0;
    while i < |items|
      invariant 0 <= i <= |items|
      invariant kept == Unmatched(items[..i], key)
    {
      assert items[..i + 1][..i] == items[..i];
      if !Matches(items[i], key) {
        kept := kept + [items[i]];
      }
      i := i + 1;
    }
    assert items[..|items|] == items;
  }

  // ---------------------------------------------------------------------
  // Grouping

  /** `[item]` when the filter shows it and it is of package `name`. */
  function FiledOne(show: ComponentName -> bool, item: WidgetItem, name: string): seq<WidgetItem>
  {
    if show(item.componentName) && item.componentName.packageName == name then [item] else []
  }

  /** The items the grouping loop files under package `name`, in order:
      those the app filter shows whose component is of that package. */
  function Filed(show: ComponentName -> bool, items: seq<WidgetItem>, name: string): seq<WidgetItem>
  {
    if items == [] then []
    else Filed(show, items[..|items| - 1], name) + FiledOne(show, items[|items| - 1], name)
  }

  /** The package names of the items the app filter shows. */
  function Shown(show: ComponentName -> bool, items: seq<WidgetItem>): set<string>
  {
    set i | 0 <= i < |items| && show(items[i].componentName) :: items[i].componentName.packageName
  }

  /** An item is filed under `name` exactly when it is one of `items`, the
      filter shows it and its package is `name`. */
  lemma {:induction false} FiledMember(show: ComponentName -> bool, items: seq<WidgetItem>, name: string, x: WidgetItem)
    ensures x in Filed(show, items, name) <==>
              x in items && show(x.componentName) && x.componentName.packageName == name
  {
    if items != [] {
      var init := items[..|items| - 1];
      FiledMember(show, init, name, x);
      assert items == init + [items[|items| - 1]];
    }
  }

  /** Nothing is filed under a name no shown item has. */
  lemma {:induction false} FiledEmpty(show: ComponentName -> bool, items: seq<WidgetItem>, name: string)
    ensures Filed(show, items, name) == [] <==> name !in Shown(show, items)
  {
    if items != [] {
      var init := items[..|items| - 1];
      var last := items[|items| - 1];
      FiledEmpty(show, init, name);
      if show(last.componentName) && last.componentName.packageName == name {
        assert name in Shown(show, items);
      } else if name in Shown(show, items) {
        var i :| 0 <= i < |items| && show(items[i].componentName) && items[i].componentName.packageName == name;
        assert i < |init| && init[i] == items[i];
      }
    }
  }

  /** One step of the grouping loop over `items[..j + 1]`. */
  lemma FiledStep(show: ComponentName -> bool, items: seq<WidgetItem>, j: nat, name: string)
    requires j < |items|
    ensures Filed(show, items[..j + 1], name) == Filed(show, items[..j], name) + FiledOne(show, items[j], name)
    ensures Shown(show, items[..j + 1])
         == Shown(show, items[..j]) + (if show(items[j].componentName) then {items[j].componentName.packageName} else {})
  {
    var s := items[..j + 1];
    assert s[..j] == items[..j];
    assert forall i :: 0 <= i < j ==> s[i] == items[..j][i];
  }

  /** How a group's user evolves as the loop files `w` into it: it takes the
      item's user unless it already is the launcher's own user. */
  function NextUser(u: UserHandle, w: WidgetItem, me: UserHandle): UserHandle
  {
    if me != u then w.user else u
  }

  /** The user a group ends with, starting from `u`, after `items` are filed into it. */
  function GroupUser(u: UserHandle, items: seq<WidgetItem>, me: UserHandle): UserHandle
  {
    if items == [] then u
    else NextUser(GroupUser(u, items[..|items| - 1], me), items[|items| - 1], me)
  }

  /** Once a group's user is the launcher's own user it stays so; otherwise
      the group ends with the user of the last item filed into it. */
  lemma {:induction false} GroupUserCases(u: UserHandle, items: seq<WidgetItem>, me: UserHandle)
    ensures u == me ==> GroupUser(u, items, me) == me
    ensures GroupUser(u, items, me) == me
         || (items == [] && GroupUser(u, items, me) == u)
         || (items != [] && GroupUser(u, items, me) == items[|items| - 1].user)
  {
    if items != [] {
      GroupUserCases(u, items[..|items| - 1], me);
    }
  }

  /** A group of one item has that item's user. */
  lemma GroupUserFirst(w: WidgetItem, me: UserHandle)
    ensures GroupUser(w.user, [w], me) == w.user
  {
    assert [w][..0] == [];
  }

  /** The items a group receives in this call: those filed under its package
      name, when it is the header the local table holds for that name. */
  function Assigned(groups: map<string, PackageItemInfo>, p: PackageItemInfo, items: seq<WidgetItem>): seq<WidgetItem>
  {
    if Holds(groups, p) then items else []
  }

  /** Whether `p` is the header the local table holds for its package. */
  predicate Holds(groups: map<string, PackageItemInfo>, p: PackageItemInfo)
  {
    p.packageName in groups && groups[p.packageName] == p
  }

  /** The table has a header for the package of every item the filter shows. */
  predicate Covers(show: ComponentName -> bool, groups: map<string, PackageItemInfo>, items: seq<WidgetItem>)
  {
    forall i :: 0 <= i < |items| && show(items[i].componentName) ==> items[i].componentName.packageName in groups
  }

  /** Every header of the table is stored under its own package name. */
  predicate Named(groups: map<string, PackageItemInfo>)
  {
    forall n :: n in groups ==> groups[n].packageName == n
  }

  /** The multimap the grouping loop builds from `lists0`, given the final
      table of headers: each shown item appended, in order, to the list of
      its package's header (`MultiHashMap.addToList`). */
  function Grouped(show: ComponentName -> bool, lists0: map<PackageItemInfo, seq<WidgetItem>>,
                   groups: map<string, PackageItemInfo>, items: seq<WidgetItem>): map<PackageItemInfo, seq<WidgetItem>>
    requires Covers(show, groups, items)
  {
    if items == [] then lists0
    else
      var rest := Grouped(show, lists0, groups, items[..|items| - 1]);
      var w := items[|items| - 1];
      if show(w.componentName) then
        var g := groups[w.componentName.packageName];
        rest[g := Get(rest, g) + [w]]
      else rest
  }

  /** A header for a package no shown item has does not change the grouping. */
  lemma {:induction false} GroupedExtend(show: ComponentName -> bool, lists0: map<PackageItemInfo, seq<WidgetItem>>,
                                         groups: map<string, PackageItemInfo>, items: seq<WidgetItem>, obj: PackageItemInfo)
    requires Covers(show, groups, items) && obj.packageName !in groups
    ensures Covers(show, groups[obj.packageName := obj], items)
    ensures Grouped(show, lists0, groups[obj.packageName := obj], items) == Grouped(show, lists0, groups, items)
  {
    if items != [] {
      GroupedExtend(show, lists0, groups, items[..|items| - 1], obj);
    }
  }

  /** What the grouping gives one header: `p` has a list exactly when it had
      one or it is a table header that received items, and its list is the
      old one followed by the items filed under its package. */
  lemma {:induction false} GroupedAt(show: ComponentName -> bool, lists0: map<PackageItemInfo, seq<WidgetItem>>,
                                     groups: map<string, PackageItemInfo>, items: seq<WidgetItem>, p: PackageItemInfo)
    requires Covers(show, groups, items) && Named(groups)
    ensures p in Grouped(show, lists0, groups, items) <==>
              p in lists0 || (Holds(groups, p) && Filed(show, items, p.packageName) != [])
    ensures p in Grouped(show, lists0, groups, items) ==>
              Grouped(show, lists0, groups, items)[p] == Get(lists0, p) + Assigned(groups, p, Filed(show, items, p.packageName))
  {
    if items != [] {
      var init := items[..|items| - 1];
      var w := items[|items| - 1];
      GroupedAt(show, lists0, groups, init, p);
      var rest := Grouped(show, lists0, groups, init);
      assert Filed(show, items, p.packageName) == Filed(show, init, p.packageName) + FiledOne(show, w, p.packageName);
      if show(w.componentName) {
        var g := groups[w.componentName.packageName];
        if p == g {
          assert Holds(groups, p);
        } else if Holds(groups, p) {
          assert p.packageName != w.componentName.packageName;
        }
      }
    }
  }

  /** The grouping keeps every list to its own package's shown items. */
  lemma GroupedWellGrouped(show: ComponentName -> bool, lists0: map<PackageItemInfo, seq<WidgetItem>>,
                           groups: map<string, PackageItemInfo>, items: seq<WidgetItem>)
    requires Covers(show, groups, items) && Named(groups) && WellGrouped(show, lists0)
    ensures WellGrouped(show, Grouped(show, lists0, groups, items))
  {
    var g: map<PackageItemInfo, seq<WidgetItem>> := Grouped(show, lists0, groups, items);
    forall p: PackageItemInfo | p in g
      ensures forall i :: 0 <= i < |g[p]| ==>
                g[p][i].componentName.packageName == p.packageName && show(g[p][i].componentName)
    {
      GroupedAt(show, lists0, groups, items, p);
      var filed := Filed(show, items, p.packageName);
      forall i | 0 <= i < |g[p]|
        ensures g[p][i].componentName.packageName == p.packageName && show(g[p][i].componentName)
      {
        if i < |Get(lists0, p)| {
          assert g[p][i] == Get(lists0, p)[i];
        } else {
          assert g[p][i] == filed[i - |Get(lists0, p)|];
          FiledMember(show, items, p.packageName, g[p][i]);
        }
      }
    }
  }

  /** The local table after the grouping loop has seen `items`, having
      started from `groups0`: one header per package name, for the names it
      started with and those of the items it filed. */
  ghost predicate GroupTable(show: ComponentName -> bool, items: seq<WidgetItem>,
                             groups0: map<string, PackageItemInfo>, groups: map<string, PackageItemInfo>)
  {
    (forall n :: n in groups <==> n in groups0 || Filed(show, items, n) != [])
    && Named(groups)
    && (forall n :: n in groups0 ==> groups[n] == groups0[n])
  }

  /** The filed items after one more step, for every name. */
  lemma FiledSteps(show: ComponentName -> bool, items: seq<WidgetItem>, j: nat)
    requires j < |items|
    ensures forall n :: Filed(show, items[..j + 1], n) == Filed(show, items[..j], n) + FiledOne(show, items[j], n)
  {
    forall n
      ensures Filed(show, items[..j + 1], n) == Filed(show, items[..j], n) + FiledOne(show, items[j], n)
    {
      FiledStep(show, items, j, n);
    }
  }

  /** An item the filter hides leaves the table as it is. */
  lemma SkipTable(show: ComponentName -> bool, items: seq<WidgetItem>, j: nat,
                  groups0: map<string, PackageItemInfo>, groups: map<string, PackageItemInfo>)
    requires j < |items| && !show(items[j].componentName)
    requires GroupTable(show, items[..j], groups0, groups)
    ensures GroupTable(show, items[..j + 1], groups0, groups)
  {
    FiledSteps(show, items, j);
  }

  /** An item whose package already has a header leaves the table as it is. */
  lemma ExistingTable(show: ComponentName -> bool, items: seq<WidgetItem>, j: nat,
                      groups0: map<string, PackageItemInfo>, groups: map<string, PackageItemInfo>)
    requires j < |items| && show(items[j].componentName) && items[j].componentName.packageName in groups
    requires GroupTable(show, items[..j], groups0, groups)
    ensures GroupTable(show, items[..j + 1], groups0, groups)
  {
    FiledSteps(show, items, j);
  }

  /** An item whose package has no header yet adds the header `obj` to the table. */
  lemma NewTable(show: ComponentName -> bool, items: seq<WidgetItem>, j: nat,
                 groups0: map<string, PackageItemInfo>, groups: map<string, PackageItemInfo>, obj: PackageItemInfo)
    requires j < |items| && show(items[j].componentName) && items[j].componentName.packageName !in groups
    requires obj.packageName == items[j].componentName.packageName
    requires GroupTable(show, items[..j], groups0, groups)
    ensures GroupTable(show, items[..j + 1], groups0, groups[obj.packageName := obj])
    ensures Filed(show, items[..j + 1], obj.packageName) == [items[j]]
  {
    var g := groups[obj.packageName := obj];
    forall n
      ensures n in g <==> n in groups0 || Filed(show, items[..j + 1], n) != []
    {
      FiledStep(show, items, j, n);
    }
    FiledStep(show, items, j, obj.packageName);
  }

  /** The table covers one more item when it has a header for that item's package. */
  lemma CoversStep(show: ComponentName -> bool, groups: map<string, PackageItemInfo>, items: seq<WidgetItem>, j: nat)
    requires j < |items| && Covers(show, groups, items[..j])
    requires show(items[j].componentName) ==> items[j].componentName.packageName in groups
    ensures Covers(show, groups, items[..j + 1])
  {
    var s := items[..j + 1];
    forall i | 0 <= i < |s| && show(s[i].componentName)
      ensures s[i].componentName.packageName in groups
    {
      if i < j {
        assert s[i] == items[..j][i];
      }
    }
  }

  /** One more item of the grouping loop, for the table `groups` it ends with. */
  lemma GroupedStep(show: ComponentName -> bool, lists0: map<PackageItemInfo, seq<WidgetItem>>,
                    groups: map<string, PackageItemInfo>, items: seq<WidgetItem>, j: nat)
    requires j < |items| && Covers(show, groups, items[..j + 1])
    ensures Covers(show, groups, items[..j])
    ensures var rest := Grouped(show, lists0, groups, items[..j]);
            Grouped(show, lists0, groups, items[..j + 1])
            == if show(items[j].componentName)
               then rest[groups[items[j].componentName.packageName] := Get(rest, groups[items[j].componentName.packageName]) + [items[j]]]
               else rest
  {
    assert items[..j + 1][..j] == items[..j];
  }

  /** The users the headers of a table have. */
  function UsersOf(groups: map<string, PackageItemInfo>): (r: map<string, UserHandle>)
    reads groups.Values
    ensures r.Keys == groups.Keys
    ensures forall n :: n in r ==> r[n] == groups[n].user
  {
    map n | n in groups :: groups[n].user
  }

  /** The state of the grouping loop after the first `j` items: the table
      and the multimap as `GroupTable` and `Grouped` describe them. */
  ghost predicate Progress(show: ComponentName -> bool, items: seq<WidgetItem>, j: nat,
                           lists0: map<PackageItemInfo, seq<WidgetItem>>, groups0: map<string, PackageItemInfo>,
                           lists: map<PackageItemInfo, seq<WidgetItem>>, groups: map<string, PackageItemInfo>)
  {
    j <= |items| && GroupTable(show, items[..j], groups0, groups) && Covers(show, groups, items[..j])
    && lists == Grouped(show, lists0, groups, items[..j])
  }

  /** One item whose package has no header yet: a new header `obj` with the
      item's user starts the package's list. */
  method FileUnderNewHeader(show: ComponentName -> bool, me: UserHandle, items: seq<WidgetItem>, j: nat,
                            lists0: map<PackageItemInfo, seq<WidgetItem>>, groups0: map<string, PackageItemInfo>,
                            lists: map<PackageItemInfo, seq<WidgetItem>>, groups: map<string, PackageItemInfo>)
    returns (lists': map<PackageItemInfo, seq<WidgetItem>>, groups': map<string, PackageItemInfo>, obj: PackageItemInfo)
    requires j < |items| && show(items[j].componentName) && items[j].componentName.packageName !in groups
    requires Progress(show, items, j, lists0, groups0, lists, groups)
    ensures fresh(obj) && obj.packageName == items[j].componentName.packageName && obj.user == items[j].user
    ensures groups' == groups[obj.packageName := obj]
    ensures Progress(show, items, j + 1, lists0, groups0, lists', groups')
    ensures UsersOf(groups') == UserStep(show, me, old(UsersOf(groups)), items[j])
  {
    var w := items[j];
    var name := w.componentName.packageName;
    obj := new PackageItemInfo(name, w.user);
    NewTable(show, items, j, groups0, groups, obj);
    GroupedExtend(show, lists0, groups, items[..j], obj);
    GroupedAt(show, lists0, groups, items[..j], obj);
    groups' := groups[name := obj];
    CoversStep(show, groups', items, j);
    GroupedStep(show, lists0, groups', items, j);
    lists' := lists[obj := Get(lists, obj) + [w]];
  }

  /** One item whose package has a header: the item joins its list, and the
      header takes the item's user unless it has the launcher's own user. */
  method FileUnderHeader(show: ComponentName -> bool, me: UserHandle, items: seq<WidgetItem>, j: nat,
                         lists0: map<PackageItemInfo, seq<WidgetItem>>, groups0: map<string, PackageItemInfo>,
                         lists: map<PackageItemInfo, seq<WidgetItem>>, groups: map<string, PackageItemInfo>)
    returns (lists': map<PackageItemInfo, seq<WidgetItem>>)
    requires j < |items| && show(items[j].componentName) && items[j].componentName.packageName in groups
    requires Progress(show, items, j, lists0, groups0, lists, groups)
    modifies groups[items[j].componentName.packageName]
    ensures Progress(show, items, j + 1, lists0, groups0, lists', groups)
    ensures UsersOf(groups) == UserStep(show, me, old(UsersOf(groups)), items[j])
  {
    var w := items[j];
    var obj := groups[w.componentName.packageName];
    ExistingTable(show, items, j, groups0, groups);
    CoversStep(show, groups, items, j);
    GroupedStep(show, lists0, groups, items, j);
    if me != obj.user {
      obj.user := w.user;
    }
    lists' := lists[obj := Get(lists, obj) + [w]];
  }

  /** An item the filter hides. */
  lemma SkipItem(show: ComponentName -> bool, items: seq<WidgetItem>, j: nat,
                 lists0: map<PackageItemInfo, seq<WidgetItem>>, groups0: map<string, PackageItemInfo>,
                 lists: map<PackageItemInfo, seq<WidgetItem>>, groups: map<string, PackageItemInfo>)
    requires j < |items| && !show(items[j].componentName)
    requires Progress(show, items, j, lists0, groups0, lists, groups)
    ensures Progress(show, items, j + 1, lists0, groups0, lists, groups)
  {
    SkipTable(show, items, j, groups0, groups);
    CoversStep(show, groups, items, j);
    GroupedStep(show, lists0, groups, items, j);
  }

  /** How filing one item changes the users of the headers: a new header
      takes the item's user, and a header the table has moves to the item's
      user unless it has the launcher's own user `me`. */
  function UserStep(show: ComponentName -> bool, me: UserHandle, u: map<string, UserHandle>,
                    w: WidgetItem): map<string, UserHandle>
  {
    var name := w.componentName.packageName;
    if !show(w.componentName) then u
    else if name in u then u[name := NextUser(u[name], w, me)]
    else u[name := w.user]
  }

  /** The users the headers of the table have after filing `items`, from
      the users `users0` of the headers the table starts with. */
  function Users(show: ComponentName -> bool, me: UserHandle, users0: map<string, UserHandle>,
                 items: seq<WidgetItem>): map<string, UserHandle>
  {
    if items == [] then users0
    else UserStep(show, me, Users(show, me, users0, items[..|items| - 1]), items[|items| - 1])
  }

  /** The users of the headers for one package name: it has a header when
      it had one or has shown items, and its user is the start user (its old
      one, or its first item's) carried through its items by `GroupUser`. */
  ghost predicate UsersAgree(show: ComponentName -> bool, me: UserHandle, users0: map<string, UserHandle>,
                             items: seq<WidgetItem>, n: string)
  {
    var u := Users(show, me, users0, items);
    var f := Filed(show, items, n);
    (n in u <==> n in users0 || f != [])
    && (n in users0 ==> u[n] == GroupUser(users0[n], f, me))
    && (n !in users0 && f != [] ==> u[n] == GroupUser(f[0].user, f, me))
  }

  /** `UsersAgree` carries over an item filed under `n`. */
  lemma UsersAgreeFiled(show: ComponentName -> bool, me: UserHandle, users0: map<string, UserHandle>,
                        items: seq<WidgetItem>, n: string)
    requires items != [] && FiledOne(show, items[|items| - 1], n) != []
    requires UsersAgree(show, me, users0, items[..|items| - 1], n)
    ensures UsersAgree(show, me, users0, items, n)
  {
    var init := items[..|items| - 1];
    var w := items[|items| - 1];
    var u0 := Users(show, me, users0, init);
    var u := Users(show, me, users0, items);
    var f0 := Filed(show, init, n);
    var f := Filed(show, items, n);
    assert f == f0 + [w];
    assert f[..|f| - 1] == f0;
    if n in users0 {
      assert GroupUser(users0[n], f, me) == NextUser(GroupUser(users0[n], f0, me), w, me);
    } else if f0 == [] {
      GroupUserFirst(w, me);
    } else {
      assert f[0] == f0[0];
      assert GroupUser(f0[0].user, f, me) == NextUser(GroupUser(f0[0].user, f0, me), w, me);
    }
  }

  /** `UsersAgree` carries over an item not filed under `n`. */
  lemma UsersAgreeNotFiled(show: ComponentName -> bool, me: UserHandle, users0: map<string, UserHandle>,
                           items: seq<WidgetItem>, n: string)
    requires items != [] && FiledOne(show, items[|items| - 1], n) == []
    requires UsersAgree(show, me, users0, items[..|items| - 1], n)
    ensures UsersAgree(show, me, users0, items, n)
  {
    assert Filed(show, items, n) == Filed(show, items[..|items| - 1], n);
  }

  /** The users of the headers on their own, for every package name. */
  lemma {:induction false} UsersAt(show: ComponentName -> bool, me: UserHandle, users0: map<string, UserHandle>,
                                   items: seq<WidgetItem>, n: string)
    ensures var u := Users(show, me, users0, items);
            var f := Filed(show, items, n);
            (n in u <==> n in users0 || f != [])
            && (n in users0 ==> u[n] == GroupUser(users0[n], f, me))
            && (n !in users0 && f != [] ==> u[n] == GroupUser(f[0].user, f, me))
  {
    if items != [] {
      UsersAt(show, me, users0, items[..|items| - 1], n);
      if FiledOne(show, items[|items| - 1], n) != [] {
        UsersAgreeFiled(show, me, users0, items, n);
      } else {
        UsersAgreeNotFiled(show, me, users0, items, n);
      }
    }
    assert UsersAgree(show, me, users0, items, n);
  }




  /** One pass of the grouping loop: item `j` is filed, or skipped when the
      filter hides it. The span check in front of the filter has empty
      branches and drops nothing. */
  method FileItem(show: ComponentName -> bool, me: UserHandle, items: seq<WidgetItem>, j: nat,
                  lists0: map<PackageItemInfo, seq<WidgetItem>>, groups0: map<string, PackageItemInfo>,
                  lists: map<PackageItemInfo, seq<WidgetItem>>, groups: map<string, PackageItemInfo>)
    returns (lists': map<PackageItemInfo, seq<WidgetItem>>, groups': map<string, PackageItemInfo>)
    requires j < |items| && Progress(show, items, j, lists0, groups0, lists, groups)
    modifies groups.Values
    ensures Progress(show, items, j + 1, lists0, groups0, lists', groups')
    ensures forall n :: n in groups ==> n in groups' && groups'[n] == groups[n]
    ensures forall n :: n in groups' && n !in groups ==> fresh(groups'[n])
    ensures UsersOf(groups') == UserStep(show, me, old(UsersOf(groups)), items[j])
  {
    var w := items[j];
    if w.widgetInfo.Some? {
      // The span check: both of its branches are empty.
      var minX := Min(w.widgetInfo.value.spanX, w.widgetInfo.value.minSpanX);
      var minY := Min(w.widgetInfo.value.spanY, w.widgetInfo.value.minSpanY);
    }
    if !show(w.componentName) {
      SkipItem(show, items, j, lists0, groups0, lists, groups);
      lists', groups' := lists, groups;
    } else if w.componentName.packageName !in groups {
      var obj;
      lists', groups', obj := FileUnderNewHeader(show, me, items, j, lists0, groups0, lists, groups);
    } else {
      lists' := FileUnderHeader(show, me, items, j, lists0, groups0, lists, groups);
      groups' := groups;
    }
  }

  /** The grouping loop of `setWidgetsAndShortcuts`. `groups0` is the local
      table of headers by package name the loop starts from, and `lists0` the
      multimap. Each item the filter shows is appended to the list of the
      header for its package, which is created (with the item's user) when
      the table has none; a header found in the table takes the item's user
      unless it already has the launcher's own user `me`. */
  method Regroup(show: ComponentName -> bool, me: UserHandle, items: seq<WidgetItem>,
                 lists0: map<PackageItemInfo, seq<WidgetItem>>, groups0: map<string, PackageItemInfo>)
    returns (lists: map<PackageItemInfo, seq<WidgetItem>>, groups: map<string, PackageItemInfo>)
    requires Named(groups0)
    modifies groups0.Values
    ensures GroupTable(show, items, groups0, groups) && Covers(show, groups, items)
    ensures lists == Grouped(show, lists0, groups, items)
    ensures forall n :: n in groups && n !in groups0 ==> fresh(groups[n])
    ensures UsersOf(groups) == Users(show, me, old(UsersOf(groups0)), items)
  {
    lists, groups := lists0, groups0;
    ghost var users0 := UsersOf(groups0);
    var j := 0;
    while j < |items|
      invariant Progress(show, items, j, lists0, groups0, lists, groups)
      invariant forall n :: n in groups && n !in groups0 ==> fresh(groups[n])
      invariant UsersOf(groups) == Users(show, me, users0, items[..j])
    {
      assert items[..j + 1][..j] == items[..j];
      lists, groups := FileItem(show, me, items, j, lists0, groups0, lists, groups);
      j := j + 1;
    }
    assert items[..|items|] == items;
  }

  // ---------------------------------------------------------------------
  // The model

  /** Every group holds only items of its own package that the filter shows. */
  predicate WellGrouped(show: ComponentName -> bool, widgets: map<PackageItemInfo, seq<WidgetItem>>)
  {
    forall p :: p in widgets ==>
      forall i :: 0 <= i < |widgets[p]| ==>
        widgets[p][i].componentName.packageName == p.packageName && show(widgets[p][i].componentName)
  }

  /** No two groups are for the same package. */
  predicate OneGroupPerPackage(widgets: map<PackageItemInfo, seq<WidgetItem>>)
  {
    forall p, q :: p in widgets && q in widgets && p.packageName == q.packageName ==> p == q
  }

  /** The multimap after the first phase of `setWidgetsAndShortcuts`: emptied
      for a null key; otherwise, when `reused` is a group of the key's
      package, that group without the key's items. */
  function Cleared(widgets: map<PackageItemInfo, seq<WidgetItem>>, key: Option<PackageUserKey>,
                   reused: Option<PackageItemInfo>): map<PackageItemInfo, seq<WidgetItem>>
  {
    if key.None? then map[]
    else if reused.Some? && reused.value in widgets
    then widgets[reused.value := Unmatched(widgets[reused.value], key.value)]
    else widgets
  }

  /** The local table the grouping loop starts from: the reused group, if any. */
  /** The users of `Seed(reused)`, given the reused header's user `u`. */
  function SeedUsers(reused: Option<PackageItemInfo>, u: UserHandle): (r: map<string, UserHandle>)
    ensures r.Keys == Seed(reused).Keys
  {
    if reused.Some? then map[reused.value.packageName := u] else map[]
  }

  function Seed(reused: Option<PackageItemInfo>): (r: map<string, PackageItemInfo>)
    ensures Named(r)
  {
    if reused.Some? then map[reused.value.packageName := reused.value] else map[]
  }

  /** How `setWidgetsAndShortcuts` picks the group it reuses: one of the key's
      package if the multimap has one, none for a null key. */
  ghost predicate ReusedFor(widgets: map<PackageItemInfo, seq<WidgetItem>>, key: Option<PackageUserKey>,
                            reused: Option<PackageItemInfo>)
  {
    (reused.Some? <==> key.Some? && exists p :: p in widgets && p.packageName == key.value.packageName)
    && (reused.Some? ==> reused.value in widgets && reused.value.packageName == key.value.packageName)
  }

  /** For a null key the multimap is rebuilt from the items alone: one group
      per package, holding exactly the package's shown items. */
  lemma RebuiltFromItems(show: ComponentName -> bool, groups: map<string, PackageItemInfo>, items: seq<WidgetItem>)
    requires GroupTable(show, items, map[], groups) && Covers(show, groups, items)
    ensures var g := Grouped(show, map[], groups, items);
            OneGroupPerPackage(g)
            && (forall p :: p in g ==> g[p] == Filed(show, items, p.packageName) && g[p] != [])
            && (forall n :: Filed(show, items, n) != [] <==> exists p :: p in g && p.packageName == n)
  {
    var g := Grouped(show, map[], groups, items);
    forall p | p in g
      ensures Holds(groups, p) && g[p] == Filed(show, items, p.packageName) && g[p] != []
    {
      GroupedAt(show, map[], groups, items, p);
    }
    forall n | Filed(show, items, n) != []
      ensures groups[n] in g && groups[n].packageName == n
    {
      GroupedAt(show, map[], groups, items, groups[n]);
    }
  }

  /** When every shown item is of the key's package, the call keeps one
      group per package: the items go to the key's group, which is the
      reused one when the multimap already had one. */
  lemma KeyedKeepsOnePerPackage(show: ComponentName -> bool, widgets: map<PackageItemInfo, seq<WidgetItem>>,
                                key: Option<PackageUserKey>, reused: Option<PackageItemInfo>,
                                groups: map<string, PackageItemInfo>, items: seq<WidgetItem>)
    requires key.Some? && ReusedFor(widgets, key, reused) && OneGroupPerPackage(widgets)
    requires GroupTable(show, items, Seed(reused), groups) && Covers(show, groups, items)
    requires forall i :: 0 <= i < |items| && show(items[i].componentName) ==>
               items[i].componentName.packageName == key.value.packageName
    ensures OneGroupPerPackage(Grouped(show, Cleared(widgets, key, reused), groups, items))
  {
    var base := Cleared(widgets, key, reused);
    var g := Grouped(show, base, groups, items);
    var name := key.value.packageName;
    forall p | p in g
      ensures p in widgets || (Holds(groups, p) && p.packageName == name && reused.None?)
    {
      GroupedAt(show, base, groups, items, p);
      if p !in base {
        var filed := Filed(show, items, p.packageName);
        FiledMember(show, items, p.packageName, filed[0]);
        var i :| 0 <= i < |items| && items[i] == filed[0];
      }
    }
  }

  /** As written, a keyed call files the shown items of every other package
      into a new group: a package that already had a group then has two. */
  lemma KeyedDuplicatesOtherPackages(show: ComponentName -> bool, widgets: map<PackageItemInfo, seq<WidgetItem>>,
                                     key: Option<PackageUserKey>, reused: Option<PackageItemInfo>,
                                     groups: map<string, PackageItemInfo>, items: seq<WidgetItem>, q: PackageItemInfo)
    requires key.Some? && ReusedFor(widgets, key, reused)
    requires GroupTable(show, items, Seed(reused), groups) && Covers(show, groups, items)
    requires q in widgets && q.packageName != key.value.packageName && Filed(show, items, q.packageName) != []
    requires groups[q.packageName] !in widgets
    ensures !OneGroupPerPackage(Grouped(show, Cleared(widgets, key, reused), groups, items))
  {
    var base := Cleared(widgets, key, reused);
    var r := groups[q.packageName];
    GroupedAt(show, base, groups, items, q);
    GroupedAt(show, base, groups, items, r);
    assert Holds(groups, r);
  }

  class WidgetsModel {
    /** `AppFilter.shouldShowApp(component, context)`. */
    const appFilter: ComponentName -> bool
    /** `Process.myUserHandle()`. */
    const myUser: UserHandle
    /** `mWidgetsList`. */
    var widgets: map<PackageItemInfo, seq<WidgetItem>>

    predicate Valid()
      reads this
    {
      WellGrouped(appFilter, widgets)
    }

    /** `new WidgetsModel(iconCache, appFilter)`. */
    constructor (appFilter: ComponentName -> bool, myUser: UserHandle)
      ensures Valid() && OneGroupPerPackage(widgets)
      ensures this.appFilter == appFilter && this.myUser == myUser && widgets == map[]
    {
      this.appFilter := appFilter;
      this.myUser := myUser;
      widgets := map[];
    }

    /** `isEmpty()`: the multimap has no group. */
    function IsEmpty(): (r: bool)
      reads this
      ensures r <==> forall p: PackageItemInfo :: p !in widgets
    {
      |widgets| == 0
    }

    /** The first phase of `setWidgetsAndShortcuts(items, context, key)`:
        for a null key the multimap is cleared; otherwise a group of the
        key's package, if one exists (whichever the key-set iteration meets
        first), is reused as the local table's entry for that package and
        its items of the key's package and user are removed. */
    method Clear(key: Option<PackageUserKey>)
      returns (ghost reused: Option<PackageItemInfo>, table: map<string, PackageItemInfo>)
      requires Valid()
      modifies this
      ensures Valid() && ReusedFor(old(widgets), key, reused)
      ensures widgets == Cleared(old(widgets), key, reused) && table == Seed(reused)
      ensures UsersOf(table) == old(UsersOf(table))
    {
      reused := None;
      table := map[];
      if key.None? {
        widgets := map[];
      } else if exists p :: p in widgets && p.packageName == key.value.packageName {
        var p :| p in widgets && p.packageName == key.value.packageName;
        reused := Some(p);
        table := map[p.packageName := p];
        var kept := Prune(widgets[p], key.value);
        forall i | 0 <= i < |kept|
          ensures kept[i] in widgets[p]
        {
          UnmatchedMember(widgets[p], key.value, kept[i]);
        }
        widgets := widgets[p := kept];
      }
    }

    /** `setWidgetsAndShortcuts(items, context, key)`: `Clear`, then every
        item the filter shows is appended to its package's group through the
        local table (`Regroup`). `reused` is the reused group and `groups`
        the final local table. The users of the headers follow `Users`. */
    method SetWidgetsAndShortcuts(items: seq<WidgetItem>, key: Option<PackageUserKey>)
      returns (ghost reused: Option<PackageItemInfo>, ghost groups: map<string, PackageItemInfo>)
      requires Valid()
      modifies this, widgets.Keys
      ensures Valid()
      ensures ReusedFor(old(widgets), key, reused)
      ensures GroupTable(appFilter, items, Seed(reused), groups) && Covers(appFilter, groups, items)
      ensures widgets == Grouped(appFilter, Cleared(old(widgets), key, reused), groups, items)
      ensures forall n :: n in groups && n !in Seed(reused) ==> fresh(groups[n])
      ensures UsersOf(groups) == Users(appFilter, myUser, old(UsersOf(Seed(reused))), items)
      ensures UsersOf(groups) == Users(appFilter, myUser, SeedUsers(reused, old(if reused.Some? then reused.value.user else myUser)), items)
      // Every old header but the reused one keeps its user.
      ensures forall p :: p in old(widgets) && reused != Some(p) ==> p.user == old(p.user)
    {
      var table;
      reused, table := Clear(key);
      ghost var cleared := widgets;
      ghost var u0 := if reused.Some? then reused.value.user else myUser;
      assert UsersOf(table) == SeedUsers(reused, u0);
      widgets, table := Regroup(appFilter, myUser, items, widgets, table);
      groups := table;
      GroupedWellGrouped(appFilter, cleared, groups, items);
    }

    /** `update(context, key)` as written: `getAllProviders()` is called
        without the key, so for a non-null key the providers of every
        package are regrouped with the key's shortcut-configuration
        activities. An exception while collecting (modelled by `Throws`)
        is swallowed, and the items collected so far are returned. */
    method Update(providers: Result<seq<ProviderInfo>>, shortcuts: Result<seq<ShortcutConfigInfo>>,
                  key: Option<PackageUserKey>)
      returns (collected: seq<WidgetItem>, ghost reused: Option<PackageItemInfo>,
               ghost groups: map<string, PackageItemInfo>)
      requires Valid()
      modifies this, widgets.Keys
      ensures Valid()
      // Both lists collected: the widget map is rebuilt from the items.
      ensures providers.Ok? && shortcuts.Ok? ==>
                ReusedFor(old(widgets), key, reused)
                && GroupTable(appFilter, collected, Seed(reused), groups) && Covers(appFilter, groups, collected)
                && widgets == Grouped(appFilter, Cleared(old(widgets), key, reused), groups, collected)
                && UsersOf(groups) == Users(appFilter, myUser, SeedUsers(reused, old(if reused.Some? then reused.value.user else myUser)), collected)
                && (forall p :: p in old(widgets) && reused != Some(p) ==> p.user == old(p.user))
      // A failed platform call leaves the map and every header's user as they were.
      ensures providers.Throws? || shortcuts.Throws? ==> forall p :: p in old(widgets) ==> p.user == old(p.user)
      ensures providers.Throws? ==> collected == [] && widgets == old(widgets)
      ensures providers.Ok? && shortcuts.Throws? ==>
                collected == ProviderItems(providers.value) && widgets == old(widgets)
      ensures providers.Ok? && shortcuts.Ok? ==>
                collected == ProviderItems(providers.value) + ShortcutItems(shortcuts.value)
      ensures providers.Ok? && shortcuts.Ok? && key.None? ==> OneGroupPerPackage(widgets)
      ensures providers.Ok? && shortcuts.Ok? && key.Some? ==>
                forall q :: q in old(widgets) && q.packageName != key.value.packageName
                            && Filed(appFilter, collected, q.packageName) != [] ==>
                  !OneGroupPerPackage(widgets)
    {
      collected, reused, groups := [], None, map[];
      if providers.Throws? {
        return;
      }
      collected := CollectProviders(providers.value);
      if shortcuts.Throws? {
        return;
      }
      collected := CollectShortcuts(collected, shortcuts.value);
      ghost var before := widgets;
      reused, groups := SetWidgetsAndShortcuts(collected, key);
      if key.None? {
        RebuiltFromItems(appFilter, groups, collected);
      } else {
        forall q | q in before && q.packageName != key.value.packageName
                   && Filed(appFilter, collected, q.packageName) != []
          ensures !OneGroupPerPackage(widgets)
        {
          KeyedDuplicatesOtherPackages(appFilter, before, key, reused, groups, collected, q);
        }
      }
    }

    /** `update(context, key)` with the key passed on to the widget manager,
        as the commented-out argument intends: for a non-null key only the
        key's providers are regrouped, which keeps one group per package. */
    method UpdateForKey(providers: Result<seq<ProviderInfo>>, shortcuts: Result<seq<ShortcutConfigInfo>>,
                        key: Option<PackageUserKey>)
      returns (collected: seq<WidgetItem>, ghost reused: Option<PackageItemInfo>,
               ghost groups: map<string, PackageItemInfo>)
      requires Valid()
      modifies this, widgets.Keys
      ensures Valid()
      // Both lists collected: the widget map is rebuilt from the items.
      ensures providers.Ok? && shortcuts.Ok? ==>
                ReusedFor(old(widgets), key, reused)
                && GroupTable(appFilter, collected, Seed(reused), groups) && Covers(appFilter, groups, collected)
                && widgets == Grouped(appFilter, Cleared(old(widgets), key, reused), groups, collected)
                && UsersOf(groups) == Users(appFilter, myUser, SeedUsers(reused, old(if reused.Some? then reused.value.user else myUser)), collected)
                && (forall p :: p in old(widgets) && reused != Some(p) ==> p.user == old(p.user))
      // A failed platform call leaves the map and every header's user as they were.
      ensures providers.Throws? || shortcuts.Throws? ==> forall p :: p in old(widgets) ==> p.user == old(p.user)
      ensures providers.Throws? ==> collected == [] && widgets == old(widgets)
      ensures providers.Ok? && shortcuts.Throws? ==>
                collected == ProviderItems(ProvidersFor(key, providers.value)) && widgets == old(widgets)
      ensures providers.Ok? && shortcuts.Ok? ==>
                collected == ProviderItems(ProvidersFor(key, providers.value)) + ShortcutItems(shortcuts.value)
      ensures providers.Ok? && shortcuts.Ok? && key.None? ==> OneGroupPerPackage(widgets)
      ensures providers.Ok? && shortcuts.Ok? && key.Some? && old(OneGroupPerPackage(widgets))
              && (forall i :: 0 <= i < |shortcuts.value| ==>
                    shortcuts.value[i].componentName.packageName == key.value.packageName) ==>
                OneGroupPerPackage(widgets)
    {
      collected, reused, groups := [], None, map[];
      if providers.Throws? {
        return;
      }
      collected := CollectProviders(ProvidersFor(key, providers.value));
      if shortcuts.Throws? {
        return;
      }
      collected := CollectShortcuts(collected, shortcuts.value);
      ghost var before := widgets;
      reused, groups := SetWidgetsAndShortcuts(collected, key);
      if key.None? {
        RebuiltFromItems(appFilter, groups, collected);
      } else if OneGroupPerPackage(before)
                && forall i :: 0 <= i < |shortcuts.value| ==>
                     shortcuts.value[i].componentName.packageName == key.value.packageName {
        KeyedItems(key, providers.value, shortcuts.value, collected);
        KeyedKeepsOnePerPackage(appFilter, before, key, reused, groups, collected);
      }
    }
  }

  /** `getAllProviders(key)`: for a non-null key, the providers of the key's
      package and user. */
  function ProvidersFor(key: Option<PackageUserKey>, providers: seq<ProviderInfo>): seq<ProviderInfo>
  {
    if key.None? || providers == [] then providers
    else
      var last := providers[|providers| - 1];
      ProvidersFor(key, providers[..|providers| - 1])
      + (if last.provider.packageName == key.value.packageName && last.profile == key.value.user then [last] else [])
  }

  /** The items of the key's providers are of the key's package. */
  lemma {:induction false} ProvidersForKey(key: Option<PackageUserKey>, providers: seq<ProviderInfo>, x: WidgetItem)
    requires key.Some? && x in ProviderItems(ProvidersFor(key, providers))
    ensures x.componentName.packageName == key.value.packageName && x.user == key.value.user
  {
    if providers != [] {
      var init := providers[..|providers| - 1];
      var last := providers[|providers| - 1];
      var items := ProviderItems(ProvidersFor(key, providers));
      var i :| 0 <= i < |items| && items[i] == x;
      if i < |ProvidersFor(key, init)| {
        assert ProviderItems(ProvidersFor(key, init))[i] == x;
        ProvidersForKey(key, init, x);
      }
    }
  }

  /** With the key's providers and shortcut-configuration activities of the
      key's package only, every collected item is of the key's package. */
  lemma KeyedItems(key: Option<PackageUserKey>, providers: seq<ProviderInfo>, shortcuts: seq<ShortcutConfigInfo>,
                   items: seq<WidgetItem>)
    requires key.Some? && items == ProviderItems(ProvidersFor(key, providers)) + ShortcutItems(shortcuts)
    requires forall i :: 0 <= i < |shortcuts| ==> shortcuts[i].componentName.packageName == key.value.packageName
    ensures forall i :: 0 <= i < |items| ==> items[i].componentName.packageName == key.value.packageName
  {
    var fromProviders := ProviderItems(ProvidersFor(key, providers));
    forall i | 0 <= i < |items|
      ensures items[i].componentName.packageName == key.value.packageName
    {
      if i < |fromProviders| {
        ProvidersForKey(key, providers, fromProviders[i]);
      } else {
        assert items[i] == FromShortcut(shortcuts[i - |fromProviders|]);
      }
    }
  }

  /** The first loop of `update`: one item per provider, in order. */
  method CollectProviders(providers: seq<ProviderInfo>) returns (items: seq<WidgetItem>)
    ensures items == ProviderItems(providers)
  {
    items := [];
    var i := 0;
    while i < |providers|
      invariant 0 <= i <= |providers|
      invariant items == ProviderItems(providers[..i])
    {
      assert providers[..i + 1][..i] == providers[..i];
      items := items + [FromProvider(providers[i])];
      i := i + 1;
    }
    assert providers[..|providers|] == providers;
  }

  /** The second loop of `update`: one item per shortcut-configuration
      activity, appended in order. */
  method CollectShortcuts(items0: seq<WidgetItem>, shortcuts: seq<ShortcutConfigInfo>) returns (items: seq<WidgetItem>)
    ensures items == items0 + ShortcutItems(shortcuts)
  {
    items := items0;
    var i := 0;
    while i < |shortcuts|
      invariant 0 <= i <= |shortcuts|
      invariant items == items0 + ShortcutItems(shortcuts[..i])
    {
      assert shortcuts[..i + 1][..i] == shortcuts[..i];
      items := items + [FromShortcut(shortcuts[i])];
      i := i + 1;
    }
    assert shortcuts[..|shortcuts|] == shortcuts;
  }
}
