/** `PopupDataProvider`: the launcher's notification-badge bookkeeping and its
    deep-shortcut lookup. A badge (`BadgeInfo`) is modelled by the set of
    notification keys it holds; the badge map never keeps an empty badge.
    Calls to `Launcher.updateIconBadges` are recorded in order. */
module PopupDataProvider {
  import opened Java
  import opened Platform

  /** `NotificationKeyData`, identified by its notification key. */
  type NotificationKey = string

  /** The parts of a `StatusBarNotification` the full refresh reads. */
  datatype StatusBarNotification = StatusBarNotification(packageName: string, user: UserHandle, key: NotificationKey)

  /** `PackageUserKey.fromNotification`. */
  function FromNotification(sbn: StatusBarNotification): PackageUserKey
  {
    PackageUserKey(sbn.packageName, sbn.user)
  }

  /** `PackageUserKey.fromItemInfo`: the target component's package and the
      item's user; a null target component throws. */
  function FromItemInfo(item: ItemInfo): (r: Result<PackageUserKey>)
    ensures r.Throws? <==> TargetComponent(item).None?
    ensures r.Ok? ==> r.value == PackageUserKey(TargetComponent(item).value.packageName, item.user)
  {
    match TargetComponent(item)
    case None => Throws(NullPointer)
    case Some(c) => Ok(PackageUserKey(c.packageName, item.user))
  }

  /** No badge of the map is empty. */
  predicate NoEmptyBadges(badges: map<PackageUserKey, set<NotificationKey>>)
  {
    forall k :: k in badges ==> badges[k] != {}
  }

  /** The badges the first loop of a full refresh builds: every notification
      adds its key to the badge of its package and user. */
  function FromNotifications(list: seq<StatusBarNotification>): map<PackageUserKey, set<NotificationKey>>
  {
    if list == [] then map[]
    else
      var m := FromNotifications(list[..|list| - 1]);
      var k := FromNotification(list[|list| - 1]);
      m[k := (if k in m then m[k] else {}) + {list[|list| - 1].key}]
  }

  /** A full refresh keys the map by exactly the packages and users of the
      notifications, and each badge holds exactly their notification keys. */
  lemma {:induction false} FromNotificationsAt(list: seq<StatusBarNotification>, k: PackageUserKey, n: NotificationKey)
    ensures k in FromNotifications(list) <==> exists i :: 0 <= i < |list| && FromNotification(list[i]) == k
    ensures k in FromNotifications(list) ==>
              (n in FromNotifications(list)[k] <==>
               exists i :: 0 <= i < |list| && FromNotification(list[i]) == k && list[i].key == n)
  {
    if list != [] {
      var init := list[..|list| - 1];
      FromNotificationsAt(init, k, n);
      if exists i :: 0 <= i < |init| && FromNotification(init[i]) == k {
        var i :| 0 <= i < |init| && FromNotification(init[i]) == k;
        assert list[i] == init[i];
      }
      if exists i :: 0 <= i < |init| && FromNotification(init[i]) == k && init[i].key == n {
        var i :| 0 <= i < |init| && FromNotification(init[i]) == k && init[i].key == n;
        assert list[i] == init[i];
      }
      forall i | 0 <= i < |list| - 1
        ensures list[i] == init[i]
      {
      }
    }
  }

  /** The badges a full refresh builds are never empty. */
  lemma {:induction false} FromNotificationsNoEmpty(list: seq<StatusBarNotification>)
    ensures NoEmptyBadges(FromNotifications(list))
  {
    if list != [] {
      FromNotificationsNoEmpty(list[..|list| - 1]);
    }
  }

  /** The keys a full refresh reports: those only in the old map, those only
      in the new one, and those in both whose old badge is invalidated by
      the new one. */
  function ToUpdate(previous: map<PackageUserKey, set<NotificationKey>>, current: map<PackageUserKey, set<NotificationKey>>,
                    invalidates: (set<NotificationKey>, set<NotificationKey>) -> bool): set<PackageUserKey>
  {
    (previous.Keys - current.Keys) + (current.Keys - previous.Keys)
    + (set k | k in previous && k in current && invalidates(previous[k], current[k]))
  }

  /** The copied map while the second loop of a full refresh runs, once the
      keys `done` of the new map have been visited: a visited key only in
      the new map is added, a visited key in both is dropped unless its old
      badge is invalidated. */
  function Pending(previous: map<PackageUserKey, set<NotificationKey>>, current: map<PackageUserKey, set<NotificationKey>>,
                   invalidates: (set<NotificationKey>, set<NotificationKey>) -> bool,
                   done: set<PackageUserKey>): map<PackageUserKey, set<NotificationKey>>
    requires done <= current.Keys
  {
    map k | k in previous.Keys + done
              && (k !in done || k !in previous || invalidates(previous[k], current[k]))
      :: if k in previous then previous[k] else current[k]
  }

  /** The keys of the second loop's map once every key of the new map has
      been visited are `ToUpdate`. */
  lemma PendingDone(previous: map<PackageUserKey, set<NotificationKey>>, current: map<PackageUserKey, set<NotificationKey>>,
                    invalidates: (set<NotificationKey>, set<NotificationKey>) -> bool)
    ensures Pending(previous, current, invalidates, current.Keys).Keys == ToUpdate(previous, current, invalidates)
  {
    var p := Pending(previous, current, invalidates, current.Keys);
    forall k | k in ToUpdate(previous, current, invalidates)
      ensures k in p
    {
    }
  }

  /** The keys `updateLauncherIconBadges` keeps: a key is dropped only when
      its badge exists, its badge icon did not change and the update is not
      forced. */
  function Kept(keys: set<PackageUserKey>, badges: map<PackageUserKey, set<NotificationKey>>,
                changed: PackageUserKey -> bool, force: bool): (r: set<PackageUserKey>)
  {
    set k | k in keys && (k !in badges || changed(k) || force)
  }

  /** The calls to `Launcher.updateIconBadges` for a set of keys: one call,
      unless the set is empty. */
  function Notified(keys: set<PackageUserKey>): seq<set<PackageUserKey>>
  {
    if keys == {} then [] else [keys]
  }

  /** One more visited key of the second loop of a full refresh: `pending`
      is the copied map, `todo` the keys of the new map not yet visited. */
  lemma PendingStep(previous: map<PackageUserKey, set<NotificationKey>>, current: map<PackageUserKey, set<NotificationKey>>,
                    invalidates: (set<NotificationKey>, set<NotificationKey>) -> bool,
                    todo: set<PackageUserKey>, pending: map<PackageUserKey, set<NotificationKey>>, k: PackageUserKey)
    requires todo <= current.Keys && k in todo
    requires pending == Pending(previous, current, invalidates, current.Keys - todo)
    ensures (if k !in pending then pending[k := current[k]]
             else if k in previous && !invalidates(previous[k], current[k]) then pending - {k}
             else pending)
            == Pending(previous, current, invalidates, current.Keys - (todo - {k}))
  {
    assert current.Keys - (todo - {k}) == (current.Keys - todo) + {k};
  }

  /** The second loop of `onNotificationFullRefresh`: over the keys of the
      new map `current`, a key the copy `previous` of the old map lacks is
      added, and one whose old badge is not invalidated is removed. */
  method Invalidated(previous: map<PackageUserKey, set<NotificationKey>>, current: map<PackageUserKey, set<NotificationKey>>,
                     invalidates: (set<NotificationKey>, set<NotificationKey>) -> bool)
    returns (pending: map<PackageUserKey, set<NotificationKey>>)
    ensures pending.Keys == ToUpdate(previous, current, invalidates)
  {
    pending := previous;
    var todo := current.Keys;
    while todo != {}
      invariant todo <= current.Keys
      invariant pending == Pending(previous, current, invalidates, current.Keys - todo)
      decreases |todo|
    {
      var k :| k in todo;
      PendingStep(previous, current, invalidates, todo, pending, k);
      if k !in pending {
        pending := pending[k := current[k]];
      } else if k in previous && !invalidates(previous[k], current[k]) {
        pending := pending - {k};
      }
      todo := todo - {k};
    }
    assert current.Keys - {} == current.Keys;
    PendingDone(previous, current, invalidates);
  }

  /** One more visited key of `updateLauncherIconBadges`: `s` is the set
      being iterated, `todo` the keys not yet visited. */
  lemma KeptStep(keys: set<PackageUserKey>, badges: map<PackageUserKey, set<NotificationKey>>,
                 changed: PackageUserKey -> bool, force: bool, todo: set<PackageUserKey>,
                 s: set<PackageUserKey>, k: PackageUserKey)
    requires todo <= keys && k in todo && s == todo + Kept(keys - todo, badges, changed, force)
    ensures (if k !in badges || changed(k) || force then s else s - {k})
            == (todo - {k}) + Kept(keys - (todo - {k}), badges, changed, force)
  {
    var done := keys - todo;
    assert keys - (todo - {k}) == done + {k};
    var kept := Kept(done, badges, changed, force);
    assert Kept(done + {k}, badges, changed, force)
           == kept + (if k !in badges || changed(k) || force then {k} else {});
    assert k !in kept;
  }

  /** The loop of `updateLauncherIconBadges`: the set is iterated and a key
      whose badge exists, whose icon did not change and which is not forced
      is removed through the iterator. */
  method KeepKeys(keys: set<PackageUserKey>, badges: map<PackageUserKey, set<NotificationKey>>,
                  changed: PackageUserKey -> bool, force: bool) returns (s: set<PackageUserKey>)
    ensures s == Kept(keys, badges, changed, force)
  {
    s := keys;
    var todo := keys;
    while todo != {}
      invariant todo <= keys
      invariant s == todo + Kept(keys - todo, badges, changed, force)
      decreases |todo|
    {
      var k :| k in todo;
      KeptStep(keys, badges, changed, force, todo, s, k);
      if !(k !in badges || changed(k) || force) {
        s := s - {k};
      }
      todo := todo - {k};
    }
    assert keys - todo == keys;
  }

  class PopupDataProvider {
    /** `mPackageUserToBadgeInfos`. */
    var badges: map<PackageUserKey, set<NotificationKey>>
    /** `mDeepShortcutMap`: the shortcut ids of each component and user. */
    var deepShortcuts: map<ComponentKey, seq<string>>
    /** The key sets passed to `Launcher.updateIconBadges`, in order. */
    var iconUpdates: seq<set<PackageUserKey>>
    /** `DeepShortcutManager.supportsShortcuts(item)`. */
    const supportsShortcuts: ItemInfo -> bool

    predicate Valid()
      reads this
    {
      NoEmptyBadges(badges)
    }

    /** `new PopupDataProvider(launcher)`. */
    constructor (supportsShortcuts: ItemInfo -> bool)
      ensures Valid()
      ensures badges == map[] && deepShortcuts == map[] && iconUpdates == []
      ensures this.supportsShortcuts == supportsShortcuts
    {
      badges := map[];
      deepShortcuts := map[];
      iconUpdates := [];
      this.supportsShortcuts := supportsShortcuts;
    }

    /** `updateLauncherIconBadges(set, force)`: the keys whose badge exists,
        whose badge icon did not change (`changed`, the result of
        `updateBadgeIcon`) and which are not forced are removed from the set
        while it is iterated; the launcher is told about the rest, if any. */
    method UpdateLauncherIconBadges(keys: set<PackageUserKey>, force: bool, changed: PackageUserKey -> bool)
      modifies this
      ensures badges == old(badges) && deepShortcuts == old(deepShortcuts)
      ensures iconUpdates == old(iconUpdates) + Notified(Kept(keys, badges, changed, force))
    {
      var s := KeepKeys(keys, badges, changed, force);
      if s != {} {
        iconUpdates := iconUpdates + [s];
      }
    }

    /** `onNotificationPosted(key, notification, shouldBeFilteredOut)`. For a
        package and user with a badge the notification's key is removed
        (filtered out) or added, and an emptied badge is dropped; without a
        badge, a notification that is not filtered out starts one. The badge
        update is forced when the badge's keys changed. */
    method OnNotificationPosted(key: PackageUserKey, n: NotificationKey, filteredOut: bool,
                                changed: PackageUserKey -> bool)
      requires Valid()
      modifies this
      ensures Valid() && deepShortcuts == old(deepShortcuts)
      ensures key in old(badges) && !filteredOut ==> badges == old(badges)[key := old(badges)[key] + {n}]
      ensures key in old(badges) && filteredOut ==>
                badges == if old(badges)[key] == {n} then old(badges) - {key}
                          else old(badges)[key := old(badges)[key] - {n}]
      ensures key !in old(badges) && !filteredOut ==> badges == old(badges)[key := {n}]
      ensures key !in old(badges) && filteredOut ==> badges == old(badges)
      ensures var force := if key in old(badges) then (n in old(badges)[key] <==> filteredOut) else !filteredOut;
              iconUpdates == old(iconUpdates) + Notified(Kept({key}, badges, changed, force))
    {
      var force := false;
      if key in badges {
        var keys := badges[key];
        if filteredOut {
          force := n in keys;
          keys := keys - {n};
        } else {
          force := n !in keys;
          keys := keys + {n};
        }
        if |keys| == 0 {
          assert old(badges)[key] == {n};
          badges := badges - {key};
        } else {
          badges := badges[key := keys];
        }
      } else if !filteredOut {
        badges := badges[key := {n}];
        force := true;
      }
      UpdateLauncherIconBadges({key}, force, changed);
    }

    /** `onNotificationRemoved(key, notification)`: only when the package and
        user have a badge holding the key is it removed (and an emptied badge
        dropped), followed by a forced badge update. */
    method OnNotificationRemoved(key: PackageUserKey, n: NotificationKey, changed: PackageUserKey -> bool)
      requires Valid()
      modifies this
      ensures Valid() && deepShortcuts == old(deepShortcuts)
      ensures key !in old(badges) || n !in old(badges)[key] ==>
                badges == old(badges) && iconUpdates == old(iconUpdates)
      ensures key in old(badges) && n in old(badges)[key] ==>
                badges == (if old(badges)[key] == {n} then old(badges) - {key}
                           else old(badges)[key := old(badges)[key] - {n}])
                && iconUpdates == old(iconUpdates) + [{key}]
    {
      if key in badges && n in badges[key] {
        var keys := badges[key] - {n};
        if |keys| == 0 {
          assert old(badges)[key] == {n};
          badges := badges - {key};
        } else {
          badges := badges[key := keys];
        }
        UpdateLauncherIconBadges({key}, true, changed);
        assert Kept({key}, badges, changed, true) == {key};
      }
    }

    /** The first loop of `onNotificationFullRefresh`. */
    method CollectBadges(list: seq<StatusBarNotification>) returns (m: map<PackageUserKey, set<NotificationKey>>)
      ensures m == FromNotifications(list)
    {
      m := map[];
      var i := 0;
      while i < |list|
        invariant i <= |list|
        invariant m == FromNotifications(list[..i])
      {
        assert list[..i + 1][..i] == list[..i];
        var k := FromNotification(list[i]);
        if k !in m {
          m := m[k := {}];
        }
        m := m[k := m[k] + {list[i].key}];
        i := i + 1;
      }
      assert list[..|list|] == list;
    }

    /** `onNotificationFullRefresh(list)`: nothing for a null list; otherwise
        the badge map is rebuilt from the notifications and the launcher is
        told, in one call, about every key `ToUpdate` names, if there is one. */
    method OnNotificationFullRefresh(list: Option<seq<StatusBarNotification>>,
                                     invalidates: (set<NotificationKey>, set<NotificationKey>) -> bool,
                                     changed: PackageUserKey -> bool)
      requires Valid()
      modifies this
      ensures Valid() && deepShortcuts == old(deepShortcuts)
      ensures list.None? ==> badges == old(badges) && iconUpdates == old(iconUpdates)
      ensures list.Some? ==> badges == FromNotifications(list.value)
      ensures list.Some? ==> iconUpdates == old(iconUpdates) + Notified(ToUpdate(old(badges), badges, invalidates))
    {
      if list.None? {
        return;
      }
      var previous := badges;
      badges := CollectBadges(list.value);
      FromNotificationsNoEmpty(list.value);
      var pending := Invalidated(previous, badges, invalidates);
      if |pending| != 0 {
        UpdateLauncherIconBadges(pending.Keys, true, changed);
        assert Kept(pending.Keys, badges, changed, true) == pending.Keys;
      }
    }

    /** `setDeepShortcutMap(map)`. */
    method SetDeepShortcutMap(m: map<ComponentKey, seq<string>>)
      modifies this
      ensures deepShortcuts == m && badges == old(badges) && iconUpdates == old(iconUpdates)
    {
      deepShortcuts := m;
    }

    /** `getShortcutIdsForItem(item)`: the shortcut ids of the item's target
        component and user; empty when shortcuts are unsupported, the target
        is null or the map has no entry. */
    function GetShortcutIdsForItem(item: ItemInfo): (r: seq<string>)
      reads this
      ensures !supportsShortcuts(item) || TargetComponent(item).None? ==> r == []
      ensures supportsShortcuts(item) && TargetComponent(item).Some? ==>
                var k := ComponentKey(TargetComponent(item).value, item.user);
                r == if k in deepShortcuts then deepShortcuts[k] else []
    {
      if !supportsShortcuts(item) then []
      else match TargetComponent(item)
        case None => []
        case Some(c) =>
          var k := ComponentKey(c, item.user);
          if k in deepShortcuts then deepShortcuts[k] else []
    }

    /** `getBadgeInfoForItem(item)`: the badge of the item's package and
        user, null when shortcuts are unsupported; a badge it returns holds
        at least one notification. */
    function GetBadgeInfoForItem(item: ItemInfo): (r: Result<Option<set<NotificationKey>>>)
      requires Valid()
      reads this
      ensures !supportsShortcuts(item) ==> r == Ok(None)
      ensures supportsShortcuts(item) ==>
                match FromItemInfo(item)
                case Throws(e) => r == Throws(e)
                case Ok(k) => r == Ok(if k in badges then Some(badges[k]) else None)
      ensures r.Ok? && r.value.Some? ==> r.value.value != {}
    {
      if !supportsShortcuts(item) then Ok(None)
      else match FromItemInfo(item)
        case Throws(e) => Throws(e)
        case Ok(k) => Ok(if k in badges then Some(badges[k]) else None)
    }

    /** `getNotificationKeysForItem(item)`: the notification keys of the
        item's badge, empty without one. */
    function GetNotificationKeysForItem(item: ItemInfo): (r: Result<set<NotificationKey>>)
      requires Valid()
      reads this
      ensures r.Throws? <==> supportsShortcuts(item) && TargetComponent(item).None?
      ensures r.Ok? ==> (r.value != {} <==> GetBadgeInfoForItem(item).value.Some?)
      ensures r.Ok? && !supportsShortcuts(item) ==> r.value == {}
      ensures r.Ok? && supportsShortcuts(item) ==>
                var k := PackageUserKey(TargetComponent(item).value.packageName, item.user);
                r.value == if k in badges then badges[k] else {}
    {
      match GetBadgeInfoForItem(item)
      case Throws(e) => Throws(e)
      case Ok(b) => Ok(if b.None? then {} else b.value)
    }
  }
}
