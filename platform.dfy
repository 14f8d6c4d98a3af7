/** The Android platform values the launcher's bookkeeping is built from,
    reduced to plain data. `UserHandle` is an opaque profile id; an `Intent`
    keeps only the parts the launcher inspects. */
module Platform {
  import opened Java

  /** `android.content.ComponentName`: a (package, class) pair. */
  datatype ComponentName = ComponentName(packageName: string, className: string)

  /** `android.os.UserHandle`: an opaque user-profile id. */
  datatype UserHandle = UserHandle(id: int)

  /** `ComponentKey`: a component together with the profile it belongs to. */
  datatype ComponentKey = ComponentKey(componentName: ComponentName, user: UserHandle)

  /** `PackageUserKey`: a package together with the profile it belongs to. */
  datatype PackageUserKey = PackageUserKey(packageName: string, user: UserHandle)

  /** `ComponentName.flattenToString()`: "package/class". */
  function FlattenToString(c: ComponentName): string
  {
    c.packageName + "/" + c.className
  }

  /** `ComponentName.toString()`: "ComponentInfo{package/class}". */
  function ComponentToString(c: ComponentName): string
  {
    "ComponentInfo{" + FlattenToString(c) + "}"
  }

  /** `android.graphics.Rect`: left, top, right and bottom edges in pixels. */
  datatype Rect = Rect(left: int, top: int, right: int, bottom: int)
  {
    function Width(): int { right - left }
    function Height(): int { bottom - top }
  }

  /** A value stored in an intent's extras bundle. */
  datatype Extra = LongExtra(l: int) | StringExtra(s: string)

  /** The parts of `android.content.Intent` the launcher reads or writes.
      `None` stands for the `null` the platform getters return. */
  datatype Intent = Intent(
    action: Option<string>,
    categories: Option<set<string>>,
    component: Option<ComponentName>,
    dataString: Option<string>,
    extras: Option<map<string, Extra>>,
    flags: bv32,
    package: Option<string>)

  const ACTION_MAIN := "android.intent.action.MAIN"
  const CATEGORY_LAUNCHER := "android.intent.category.LAUNCHER"
  const FLAG_ACTIVITY_NEW_TASK: bv32 := 0x1000_0000
  const FLAG_ACTIVITY_RESET_TASK_IF_NEEDED: bv32 := 0x0020_0000

  /** `ItemInfo.EXTRA_PROFILE`: the extra carrying the user's serial number. */
  const EXTRA_PROFILE := "profile"

  /** `ShortcutInfoCompat.EXTRA_SHORTCUT_ID`. */
  const EXTRA_SHORTCUT_ID := "shortcut_id"

  /** `Intent.getStringExtra`: null when absent or not a string. */
  function GetStringExtra(intent: Intent, name: string): (r: Option<string>)
    ensures r.Some? <==> intent.extras.Some? && name in intent.extras.value
                         && intent.extras.value[name].StringExtra?
  {
    if intent.extras.Some? && name in intent.extras.value && intent.extras.value[name].StringExtra?
    then Some(intent.extras.value[name].s)
    else None
  }

  /** The parts of `ItemInfo` the modelled code reads: its intent and user. */
  datatype ItemInfo = ItemInfo(intent: Option<Intent>, user: UserHandle)

  /** `ItemInfo.getTargetComponent()`: the intent's component, null without an intent. */
  function TargetComponent(item: ItemInfo): (r: Option<ComponentName>)
    ensures r.Some? ==> item.intent.Some? && item.intent.value.component == r
  {
    if item.intent.None? then None else item.intent.value.component
  }

  /** The span fields of a `LauncherAppWidgetProviderInfo`. */
  datatype WidgetSpans = WidgetSpans(spanX: int, spanY: int, minSpanX: int, minSpanY: int)

  /** An `AppWidgetProviderInfo` as the widget manager lists it. */
  datatype ProviderInfo = ProviderInfo(provider: ComponentName, profile: UserHandle, spans: WidgetSpans)
}
