/** `AppInfo`: one launchable activity of one user profile, as listed in
    the all-apps view. */
module AppInfo {
  import opened Java
  import opened Platform
  import opened IconCache
  import Utilities

  /** `AppInfo.DOWNLOADED_FLAG` and `AppInfo.UPDATED_SYSTEM_APP_FLAG`. */
  const DOWNLOADED_FLAG: bv32 := 1
  const UPDATED_SYSTEM_APP_FLAG: bv32 := 2

  /** `ApplicationInfo.FLAG_SYSTEM` and `ApplicationInfo.FLAG_UPDATED_SYSTEM_APP`. */
  const FLAG_SYSTEM: bv32 := 0x1
  const FLAG_UPDATED_SYSTEM_APP: bv32 := 0x80

  /** `ShortcutInfo.DEFAULT`, `FLAG_DISABLED_SUSPENDED` and `FLAG_DISABLED_QUIET_USER`. */
  const DEFAULT: bv32 := 0
  const FLAG_DISABLED_SUSPENDED: bv32 := 4
  const FLAG_DISABLED_QUIET_USER: bv32 := 8

  /** `ItemInfo.NO_ID`. */
  const NO_ID := -1

  /** The parts of a `LauncherActivityInfoCompat` the launcher reads: the
      component, its application's flags and whether the package manager
      reports the application as suspended. */
  datatype ActivityInfo = ActivityInfo(componentName: ComponentName, appFlags: bv32, suspended: bool)

  /** `initFlags(info)`: downloaded unless a system app; updated-system only
      for a downloaded app whose application carries the updated bit. */
  function InitFlags(appFlags: bv32): (r: bv32)
    ensures appFlags & FLAG_SYSTEM != 0 ==> r == 0
    ensures appFlags & FLAG_SYSTEM == 0 ==> r & DOWNLOADED_FLAG != 0
    ensures r & UPDATED_SYSTEM_APP_FLAG != 0 <==>
              appFlags & FLAG_SYSTEM == 0 && appFlags & FLAG_UPDATED_SYSTEM_APP != 0
    ensures r & !(DOWNLOADED_FLAG | UPDATED_SYSTEM_APP_FLAG) == 0
  {
    var flags: bv32 := 0;
    if appFlags & FLAG_SYSTEM == 0 then
      var downloaded := flags | DOWNLOADED_FLAG;
      if appFlags & FLAG_UPDATED_SYSTEM_APP != 0 then downloaded | UPDATED_SYSTEM_APP_FLAG else downloaded
    else flags
  }

  /** The disabled bits the constructor ORs into `ShortcutInfo.DEFAULT`. */
  function DisabledFlags(suspended: bool, quietModeEnabled: bool): (r: bv32)
    ensures r & FLAG_DISABLED_SUSPENDED != 0 <==> suspended
    ensures r & FLAG_DISABLED_QUIET_USER != 0 <==> quietModeEnabled
    ensures r & !(FLAG_DISABLED_SUSPENDED | FLAG_DISABLED_QUIET_USER) == 0
    ensures r != 0 <==> suspended || quietModeEnabled
  {
    var afterSuspended := if suspended then DEFAULT | FLAG_DISABLED_SUSPENDED else DEFAULT;
    if quietModeEnabled then afterSuspended | FLAG_DISABLED_QUIET_USER else afterSuspended
  }

  /** `makeLaunchIntent(context, info, user)`: MAIN / LAUNCHER for the
      component, new task, with the user's serial number as the profile
      extra. `serialNumber` stands for `getSerialNumberForUser(user)`. */
  function MakeLaunchIntent(componentName: ComponentName, serialNumber: int): (r: Intent)
    ensures Utilities.IsLauncherAppTarget(Some(r))
    ensures r.component == Some(componentName)
    ensures r.flags == FLAG_ACTIVITY_NEW_TASK | FLAG_ACTIVITY_RESET_TASK_IF_NEEDED
    ensures r.extras == Some(map[EXTRA_PROFILE := LongExtra(serialNumber)])
  {
    Intent(Some(ACTION_MAIN), Some({CATEGORY_LAUNCHER}), Some(componentName), None,
           Some(map[EXTRA_PROFILE := LongExtra(serialNumber)]),
           FLAG_ACTIVITY_NEW_TASK | FLAG_ACTIVITY_RESET_TASK_IF_NEEDED, None)
  }

  class AppInfo {
    const componentName: ComponentName
    const user: UserHandle
    const intent: Intent
    var container: int
    var title: Option<string>
    var iconBitmap: nat
    var flags: bv32
    var isDisabled: bv32

    /** The launch intent names this entry's own component. */
    predicate WellFormed()
    {
      intent.component == Some(componentName)
    }

    /** `AppInfo(context, info, user, iconCache, quietModeEnabled)`. */
    constructor (info: ActivityInfo, user: UserHandle, iconCache: IconCache,
                 quietModeEnabled: bool, serialNumber: int)
      ensures componentName == info.componentName && this.user == user
      ensures container == NO_ID
      ensures flags == InitFlags(info.appFlags)
      ensures isDisabled == DisabledFlags(info.suspended, quietModeEnabled)
      ensures IsDisabled() <==> info.suspended || quietModeEnabled
      ensures title == Some(iconCache.lookup(ComponentKey(info.componentName, user)).title)
      ensures iconBitmap == iconCache.lookup(ComponentKey(info.componentName, user)).icon
      ensures intent == MakeLaunchIntent(info.componentName, serialNumber)
      ensures WellFormed()
    {
      componentName := info.componentName;
      container := NO_ID;
      flags := InitFlags(info.appFlags);
      var disabled := DEFAULT;
      if info.suspended {
        disabled := disabled | FLAG_DISABLED_SUSPENDED;
      }
      if quietModeEnabled {
        disabled := disabled | FLAG_DISABLED_QUIET_USER;
      }
      isDisabled := disabled;
      var entry := iconCache.lookup(ComponentKey(info.componentName, user));
      title := Some(entry.title);
      iconBitmap := entry.icon;
      intent := MakeLaunchIntent(info.componentName, serialNumber);
      this.user := user;
    }

    /** `AppInfo(AppInfo info)`: a copy whose title goes through
        `Utilities.trim`, the regex as written. */
    constructor Copy(info: AppInfo)
      requires info.title.Some? ==> Utilities.NoLineTerminator(info.title.value)
      ensures componentName == info.componentName && user == info.user && intent == info.intent
      ensures container == info.container
      ensures flags == info.flags && isDisabled == info.isDisabled && iconBitmap == info.iconBitmap
      ensures title == Utilities.Trim(info.title)
      ensures info.WellFormed() ==> WellFormed()
    {
      user := info.user;
      container := info.container;
      componentName := info.componentName;
      title := Utilities.Trim(info.title);
      intent := info.intent;
      flags := info.flags;
      isDisabled := info.isDisabled;
      iconBitmap := info.iconBitmap;
    }

    /** `isDisabled()`: a suspended or quiet-profile bit disables the entry,
        and an enabled entry carries no disabled bit at all. */
    function IsDisabled(): (r: bool)
      reads this
      ensures isDisabled & FLAG_DISABLED_SUSPENDED != 0 ==> r
      ensures isDisabled & FLAG_DISABLED_QUIET_USER != 0 ==> r
      ensures !r ==> isDisabled == 0
    {
      isDisabled != 0
    }

    /** `toComponentKey()`. */
    function ToComponentKey(): (r: ComponentKey)
      ensures r.componentName == componentName && r.user == user
    {
      ComponentKey(componentName, user)
    }

    /** `iconCache.getTitleAndIcon(this, info, true)` and
        `iconCache.updateTitleAndIcon(this)`: the title and icon become the
        cache's entry for this component and user. */
    method LoadTitleAndIcon(iconCache: IconCache)
      modifies `title, `iconBitmap
      ensures title == Some(iconCache.lookup(ToComponentKey()).title)
      ensures iconBitmap == iconCache.lookup(ToComponentKey()).icon
      ensures container == old(container) && flags == old(flags) && isDisabled == old(isDisabled)
    {
      var entry := iconCache.lookup(ToComponentKey());
      title := Some(entry.title);
      iconBitmap := entry.icon;
    }
  }

  /** Two entries share a component key exactly when they share both the
      component and the user. */
  lemma ToComponentKeyIdentifies(a: AppInfo, b: AppInfo)
    ensures a.ToComponentKey() == b.ToComponentKey() <==> a.componentName == b.componentName && a.user == b.user
  {
  }
}
