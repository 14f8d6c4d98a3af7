/** `ShortcutKey`: a deep shortcut identified by its package, id and user,
    stored as a `ComponentKey` whose class name is the shortcut id. */
module ShortcutKey {
  import opened Java
  import opened Platform

  /** The parts of `ShortcutInfoCompat` a key is built from. */
  datatype ShortcutInfoCompat = ShortcutInfoCompat(packageName: string, userHandle: UserHandle, id: string)

  /** The parts of a launcher `ShortcutInfo` a key is built from: the intent
      `getPromisedIntent()` returns (null allowed) and the item's user. */
  datatype ShortcutInfo = ShortcutInfo(promisedIntent: Option<Intent>, user: UserHandle)

  /** `new ShortcutKey(packageName, user, id)`. `new ComponentName` throws
      a `NullPointerException` for a null package or class name. */
  function NewShortcutKey(packageName: Option<string>, user: UserHandle, id: Option<string>): (r: Result<ComponentKey>)
    ensures r.Throws? <==> packageName.None? || id.None?
    ensures r.Throws? ==> r.error == NullPointer
    ensures r.Ok? ==> r.value.componentName.packageName == packageName.value && r.value.user == user
    ensures r.Ok? ==> GetId(r.value) == id.value
  {
    if packageName.None? || id.None? then Throws(NullPointer)
    else Ok(ComponentKey(ComponentName(packageName.value, id.value), user))
  }

  /** `getId()`: the component's class name. */
  function GetId(key: ComponentKey): string
  {
    key.componentName.className
  }

  /** Every key is the one the constructor builds from its package, its
      user and its `getId()`. */
  lemma GetIdRebuildsKey(key: ComponentKey)
    ensures NewShortcutKey(Some(key.componentName.packageName), key.user, Some(GetId(key))) == Ok(key)
  {
  }

  /** Two keys built from non-null parts are equal exactly when their
      packages, users and ids are. */
  lemma KeyInjective(p1: string, u1: UserHandle, id1: string, p2: string, u2: UserHandle, id2: string)
    ensures NewShortcutKey(Some(p1), u1, Some(id1)) == NewShortcutKey(Some(p2), u2, Some(id2))
            <==> p1 == p2 && u1 == u2 && id1 == id2
  {
  }

  /** `fromInfo(shortcutInfo)`. */
  function FromInfo(info: ShortcutInfoCompat): (r: ComponentKey)
    ensures r.componentName.packageName == info.packageName && r.user == info.userHandle
    ensures GetId(r) == info.id
    ensures NewShortcutKey(Some(info.packageName), info.userHandle, Some(info.id)) == Ok(r)
  {
    ComponentKey(ComponentName(info.packageName, info.id), info.userHandle)
  }

  /** `fromIntent(intent, user)`: the intent's package and its shortcut id
      extra; a null intent throws. */
  function FromIntent(intent: Option<Intent>, user: UserHandle): (r: Result<ComponentKey>)
    ensures r.Throws? <==> intent.None? || intent.value.package.None?
                           || GetStringExtra(intent.value, EXTRA_SHORTCUT_ID).None?
    ensures r.Throws? ==> r.error == NullPointer
    ensures r.Ok? ==> intent.Some? && intent.value.package == Some(r.value.componentName.packageName)
                      && GetStringExtra(intent.value, EXTRA_SHORTCUT_ID) == Some(GetId(r.value))
                      && r.value.user == user
  {
    if intent.None? then Throws(NullPointer)
    else NewShortcutKey(intent.value.package, user, GetStringExtra(intent.value, EXTRA_SHORTCUT_ID))
  }

  /** `fromShortcutInfo(info)`: the key of the promised intent and the item's user. */
  function FromShortcutInfo(info: ShortcutInfo): (r: Result<ComponentKey>)
    ensures r.Throws? <==> info.promisedIntent.None? || info.promisedIntent.value.package.None?
                           || GetStringExtra(info.promisedIntent.value, EXTRA_SHORTCUT_ID).None?
    ensures r.Ok? ==> r.value.user == info.user
                      && info.promisedIntent.value.package == Some(r.value.componentName.packageName)
                      && GetStringExtra(info.promisedIntent.value, EXTRA_SHORTCUT_ID) == Some(GetId(r.value))
  {
    FromIntent(info.promisedIntent, info.user)
  }

  /** `fromItemInfo(itemInfo)`: the key of the item's intent and user. */
  function FromItemInfo(item: ItemInfo): (r: Result<ComponentKey>)
    ensures r.Throws? <==> item.intent.None? || item.intent.value.package.None?
                           || GetStringExtra(item.intent.value, EXTRA_SHORTCUT_ID).None?
    ensures r.Ok? ==> r.value.user == item.user
                      && item.intent.value.package == Some(r.value.componentName.packageName)
                      && GetStringExtra(item.intent.value, EXTRA_SHORTCUT_ID) == Some(GetId(r.value))
  {
    FromIntent(item.intent, item.user)
  }

  /** An intent carrying a package and a string shortcut id yields the key
      with that id: the id extra round-trips through the key. */
  lemma IntentRoundTrip(intent: Intent, user: UserHandle, packageName: string, id: string)
    requires intent.package == Some(packageName)
    requires intent.extras.Some? && EXTRA_SHORTCUT_ID in intent.extras.value
    requires intent.extras.value[EXTRA_SHORTCUT_ID] == StringExtra(id)
    ensures FromIntent(Some(intent), user).Ok?
    ensures GetId(FromIntent(Some(intent), user).value) == id
    ensures FromIntent(Some(intent), user).value == FromInfo(ShortcutInfoCompat(packageName, user, id))
  {
  }
}
