# LightningLauncher core, modelled in Dafny

This project models the non-visual core of the LightningLauncher home-screen
app, which is a Launcher3 fork for Android. It covers the following parts:

- the catalogue of launchable apps and how a package change updates it;
- the widget and shortcut lists grouped by package;
- notification badges and deep-shortcut lookups;
- icon packs, from parsing `appfilter.xml` to choosing an icon;
- the small utilities:
  - trimming;
  - the SQL selection query;
  - hue colours;
  - the per-app visibility preference;
  - badge geometry;
- the `AppInfo` flags and its launch intent;
- the settings listener's reaction to each preference key;
- the hidden-app filter;
- the wallpaper-colour extraction checks;
- the user-profile cache;
- the widget-provider lists of all profiles;
- the integer layout arithmetic of `DeviceProfile`;
- the long-press helper;
- deep-shortcut keys.

The model follows the Java code path by path: the same branches and the
same edge cases. Exceptions are modelled where "## Left out" does not say
otherwise; the ones an app filter can raise are not.

- `null` is `Option`, and a thrown exception is `Result.Throws`.
- Java's truncating division is `Java.Div`, and Java's float-to-int cast is
  `Java.FloatToInt`.
- Objects whose fields the source updates in place are classes. Their
  `modifies` clauses name exactly what changes.
- A loop in the source becomes a method whose loop invariants tie it to a
  specification function. The properties are lemmas about those functions.
- The Android platform is not modelled. Its services appear as
  function-typed parameters or fields, and the calling code's contract is
  stated for every answer the parameter's type allows. An app filter is a
  total predicate, so it answers but never throws. These services are the package
  manager, the launcher-apps service, the icon cache, the app filter, the
  widget manager, the user manager, the notification listener, resources
  and the clock.

Modules follow the source files. `Java` holds the language semantics, and
`Platform` the Android value types. `Prefs` holds `SharedPreferences` as a
class over a map of typed values. The other modules are `AllAppsList`,
`WidgetsModel`, `PopupDataProvider`, `IconCache` (the part of the icon cache
that `AllAppsList` calls), `IconPackProvider`, `IconPack`, `Utilities`,
`AppInfo`, `Settings`, `StringSetAppFilter`, `ExtractionUtils`,
`UserManagerCompat`, `AppWidgetManagerCompat`, `DeviceProfile`,
`CheckLongPressHelper` and `ShortcutKey`.

## Model

| member | source | states |
|---|---|---|
| AllAppsList.AllAppsList.constructor | src/com/pixeldust/launcher/AllAppsList.java:65-68 | all four lists start empty; the icon cache and app filter are the given ones |
| AllAppsList.AllAppsList.Add | src/com/pixeldust/launcher/AllAppsList.java:76-85 | the entry is appended to `data` and `added` exactly when the filter admits it and no entry has its component and user; otherwise nothing changes; the catalogue invariant (distinct keys) is kept |
| AllAppsList.AllAppsList.Clear | src/com/pixeldust/launcher/AllAppsList.java:87-93 | all four lists are empty |
| AllAppsList.AllAppsList.AddPackage | src/com/pixeldust/launcher/AllAppsList.java:106-114 | `data` grows by exactly the entries the reference pass `Reconcile` adds, and they are appended to `added` too; each new entry is a fresh object holding the cache's title and icon |
| AllAppsList.AllAppsList.AddPackageStep | src/com/pixeldust/launcher/AllAppsList.java:111-113 | one activity of `addPackage` advances the added keys exactly as one `Step` of `Reconcile`; an entry it adds is fresh and loaded from the cache |
| AllAppsList.AllAppsList.AddNew | src/com/pixeldust/launcher/AllAppsList.java:112 | a fresh entry loaded from the cache goes through `add`: appended exactly when admitted and not yet listed |
| AllAppsList.AllAppsList.RemovePackage | src/com/pixeldust/launcher/AllAppsList.java:119-130 | `data` keeps exactly the entries not of that package and user, in order; the removed ones go to `removed` in reverse list order; none of the package's entries remains |
| AllAppsList.AllAppsList.UpdatePackageFlags | src/com/pixeldust/launcher/AllAppsList.java:134-144 | each entry of the user whose package matches gets `op` applied to its disabled flags and is appended to `modified` (in reverse order); the other entries keep their flags |
| AllAppsList.AllAppsList.UpdateIconsAndLabels | src/com/pixeldust/launcher/AllAppsList.java:146-155 | each entry of the user among the packages takes title and icon from the cache and is appended to the updates in list order; the other entries are unchanged, and only titles and icons are in the frame |
| AllAppsList.AllAppsList.UpdatePackage | src/com/pixeldust/launcher/AllAppsList.java:159-204 | with no activities, the package's entries are removed and evicted from the icon cache; otherwise entries whose activity disappeared are removed, listed activities are refreshed or added as `Reconcile` says, and afterwards every entry of the package names a listed activity; every refreshed entry holds the cache's title and icon, every other old entry is unchanged, and only titles and icons are in the frame |
| AllAppsList.AllAppsList.RemoveSelected | src/com/pixeldust/launcher/AllAppsList.java:163-175 | the backward removal loop: `data` becomes the unselected entries and `removed` gains the selected ones in reverse order |
| AllAppsList.AllAppsList.RemoveAndEvictSelected | src/com/pixeldust/launcher/AllAppsList.java:192-203 | as the removal loop, and the icon cache evicts the component of every removed entry, in removal order |
| AllAppsList.AllAppsList.AddOrRefresh | src/com/pixeldust/launcher/AllAppsList.java:179-189 | a listed activity's entry is refreshed from the cache and appended to `modified`; an unlisted admitted one becomes a fresh entry in `data` and `added`; an unlisted rejected one changes nothing; the entry with the activity's key is reloaded from the cache and every other entry is unchanged |
| AllAppsList.AllAppsList.AddOrRefreshAll | src/com/pixeldust/launcher/AllAppsList.java:177-190 | the second pass adds exactly `Reconcile`'s `added` keys and refreshes exactly its `found` keys, keeping the old prefix of each list; every refreshed entry holds the cache's title and icon and every entry not refreshed is unchanged |
| AllAppsList.AllAppsList.ReconcileStep | src/com/pixeldust/launcher/AllAppsList.java:179-189 | one activity of the second pass advances the added and found keys exactly as one `Step` of `Reconcile`; old entries it does not refresh keep their title and icon |
| AllAppsList.AllAppsList.RefreshPass | src/com/pixeldust/launcher/AllAppsList.java:179-190 | the loop over the listed activities adds and refreshes exactly `Reconcile`'s keys; each refreshed entry holds the cache's title and icon, every other old entry keeps both |
| AllAppsList.AllAppsList.UpdateListedPackage | src/com/pixeldust/launcher/AllAppsList.java:162-190 | the package's entries whose activity disappeared are removed, then the second pass runs on what is left; refreshed entries are loaded from the cache and no other entry changes |
| AllAppsList.AllAppsList.UpdateUnlistedPackage | src/com/pixeldust/launcher/AllAppsList.java:191-202 | every entry of the package and user is removed and its cache key evicted, both in reverse order; nothing is added or modified |
| AllAppsList.AllAppsList.FindApplicationInfoLocked | src/com/pixeldust/launcher/AllAppsList.java:248-258 | null exactly when no entry launches `packageName/className` for the user; otherwise an entry of `data` that does |
| AllAppsList.FindActivity | src/com/pixeldust/launcher/AllAppsList.java:233-244 | true exactly when some entry has the component and the user |
| AllAppsList.FindActivityIn | src/com/pixeldust/launcher/AllAppsList.java:210-218 | true exactly when some activity has the component |
| AllAppsList.Components | src/com/pixeldust/launcher/AllAppsList.java:210-218 | the set of components the activity list names, membership both ways |
| AllAppsList.HasEntryIffKey | src/com/pixeldust/launcher/AllAppsList.java:233-244 | an entry with the component and user exists exactly when its component key is among the list's keys |
| AllAppsList.RemoveFrom | src/com/pixeldust/launcher/AllAppsList.java:121-129 | the backward index loop with `data.remove(i)` leaves the unselected entries in order and drops the selected ones in reverse order |
| AllAppsList.RemoveAndEvictFrom | src/com/pixeldust/launcher/AllAppsList.java:194-203 | as `RemoveFrom`, each deleted entry's component being evicted from the cache in the same order |
| AllAppsList.ApplyFlagOp | src/com/pixeldust/launcher/AllAppsList.java:136-143 | the loop of `updatePackageFlags`: selected entries get `op` applied once and are collected in reverse order |
| AllAppsList.RefreshSelected | src/com/pixeldust/launcher/AllAppsList.java:147-154 | the loop of `updateIconsAndLabels`: selected entries are refreshed from the cache and collected in order; only titles and icons are in the frame, and unselected entries are unchanged |
| AllAppsList.SelectionPartitions | src/com/pixeldust/launcher/AllAppsList.java:119-130 | the removal loop loses and duplicates nothing: kept plus removed is the original list as a multiset |
| AllAppsList.SelectionMember | src/com/pixeldust/launcher/AllAppsList.java:119-130 | an entry is removed exactly when it was listed and matches, and kept exactly when it was listed and does not |
| AllAppsList.UnselectedDistinct | src/com/pixeldust/launcher/AllAppsList.java:76-85 | removing entries keeps the no-duplicate-key invariant `add` establishes |
| AllAppsList.RemovalKeepsValid | src/com/pixeldust/launcher/AllAppsList.java:119-130 | the entries left after a removal are still well formed with distinct keys |
| AllAppsList.ReconcileAddsFresh | src/com/pixeldust/launcher/AllAppsList.java:177-190 | the second pass adds each key at most once, never one already listed, only admitted activities of that user which are listed |
| AllAppsList.ReconcileCovers | src/com/pixeldust/launcher/AllAppsList.java:177-190 | after the pass every activity the filter admits is listed |
| AllAppsList.ReconcileCounts | src/com/pixeldust/launcher/AllAppsList.java:177-190 | added plus refreshed is at most the number of activities, and equals it without a filter |
| AllAppsList.KeptIsListed | src/com/pixeldust/launcher/AllAppsList.java:163-175 | an entry of the package surviving the first pass names a listed activity |
| AllAppsList.OnlyListedRemain | src/com/pixeldust/launcher/AllAppsList.java:159-190 | after both passes every entry of the package names a listed activity |
| Utilities.BoundToRange | src/com/pixeldust/launcher/Utilities.java:695-697 | the result lies in `[lowerBound, upperBound]` whenever the range is non-empty; a value in range is unchanged, one below gives the lower bound, one above gives the upper bound; with crossed bounds the lower bound wins |
| Utilities.Trim | src/com/pixeldust/launcher/Utilities.java:602-611 | the regex as written: null stays null, otherwise exactly the longest leading run of whitespace, space and `\|` characters is removed |
| Utilities.StripLeadingTrimChars | src/com/pixeldust/launcher/Utilities.java:95-96 | the result is a suffix; everything dropped is a pattern character; the result does not start with one |
| Utilities.TrimIsMaximalLeadingStrip | src/com/pixeldust/launcher/Utilities.java:602-611 | the trimmed string is `s[k..]` for a `k` whose prefix is all pattern characters, and it does not start with one |
| Utilities.TrimIdempotent | src/com/pixeldust/launcher/Utilities.java:602-611 | trimming twice is trimming once |
| Utilities.TrimKeepsTail | src/com/pixeldust/launcher/Utilities.java:95-96 | the greedy group keeps everything after the first non-pattern character, including trailing whitespace |
| Utilities.TrimAsWrittenKeepsTrailingSpace | src/com/pixeldust/launcher/Utilities.java:602-611 | `trim("a ")` is `"a "`: trailing whitespace is not removed |
| Utilities.TrimAsWrittenStripsBar | src/com/pixeldust/launcher/Utilities.java:602-611 | `trim("\|a")` is `"a"`: a leading `\|` is removed as if it were whitespace |
| Utilities.StripLeadingWhitespace | src/com/pixeldust/launcher/Utilities.java:598-601 | the result is a suffix, everything dropped is whitespace, and the result does not start with whitespace |
| Utilities.StripTrailingWhitespace | src/com/pixeldust/launcher/Utilities.java:598-601 | the result is a prefix, everything dropped is whitespace, and the result does not end with whitespace |
| Utilities.TrimWhitespace | src/com/pixeldust/launcher/Utilities.java:598-611 | the documented trim: null exactly for null |
| Utilities.TrimWhitespaceCorrect | src/com/pixeldust/launcher/Utilities.java:598-601 | the result is `s[i..j]`, with only whitespace outside the slice and non-whitespace at both ends of a non-empty result |
| Utilities.TrimWhitespaceIdempotent | src/com/pixeldust/launcher/Utilities.java:598-601 | trimming twice is trimming once |
| Utilities.TrimWhitespaceOnCounterexamples | src/com/pixeldust/launcher/Utilities.java:598-601 | on the two inputs the regex gets wrong, the documented trim gives `"a"` and keeps `"\|a"` |
| Utilities.JoinConcat | src/com/pixeldust/launcher/Utilities.java:668-670 | `TextUtils.join` of a concatenation is the two joins with one delimiter between them |
| Utilities.CreateDbSelectionQuery | src/com/pixeldust/launcher/Utilities.java:668-670 | the query starts with the column name and ` IN (` and ends with `)` |
| Utilities.CreateDbSelectionQueryEmpty | src/com/pixeldust/launcher/Utilities.java:668-670 | no values give `column IN ()` |
| Utilities.CreateDbSelectionQuerySingle | src/com/pixeldust/launcher/Utilities.java:668-670 | one value gives `column IN (v)`, with no separator |
| Utilities.CreateDbSelectionQueryCons | src/com/pixeldust/launcher/Utilities.java:668-670 | a first value is followed by `, ` and the other values joined by `, ` inside the parentheses |
| Utilities.CreateDbSelectionQueryAppend | src/com/pixeldust/launcher/Utilities.java:668-670 | one more value adds `, v` inside the parentheses |
| Utilities.IsLauncherAppTarget | src/com/pixeldust/launcher/Utilities.java:633-651 | only a present intent with action MAIN, a component and empty data is a launcher-app target |
| Utilities.IsLauncherAppTargetIff | src/com/pixeldust/launcher/Utilities.java:633-653 | true exactly for an intent with action MAIN, a component, the single category LAUNCHER, empty data, and either no extras or only the profile extra |
| Utilities.GetHueArray | src/com/pixeldust/launcher/Utilities.java:825-866 | a palette exactly for hue ids 0 to 18, null otherwise |
| Utilities.GetHueArrayInjective | src/com/pixeldust/launcher/Utilities.java:825-866 | distinct hue ids give distinct palettes |
| Utilities.GetColor | src/com/pixeldust/launcher/Utilities.java:808-823 | a colour is black, transparent, white or a `parseColor` result; a failure is a `ClassCastException` or `NumberFormatException` from reading the preferences, a `NullPointerException` or `ArrayIndexOutOfBoundsException` from indexing, or a `parseColor` failure |
| Utilities.GetColorFromPalette | src/com/pixeldust/launcher/Utilities.java:808-823 | for stored hue id 0 to 18 and a stored variation, the colour is `parseColor` of that palette's entry when the variation indexes it, and `ArrayIndexOutOfBoundsException` otherwise |
| Utilities.GetColorNegativeHue | src/com/pixeldust/launcher/Utilities.java:808-818 | a negative hue id gives black for -2, transparent for -1 and white otherwise, without reading the variation |
| Utilities.GetColorUnknownHue | src/com/pixeldust/launcher/Utilities.java:808-823 | a hue id above 18 has no palette, so indexing it throws a `NullPointerException` |
| Utilities.VisibilityKeyInjective | src/com/pixeldust/launcher/Utilities.java:892-898 | distinct app keys use distinct `visibility_` preference keys |
| Utilities.IsAppHidden | src/com/pixeldust/launcher/Utilities.java:896-898 | an app without a stored flag is not hidden; a stored boolean flag is negated |
| Utilities.SetAppVisibility | src/com/pixeldust/launcher/Utilities.java:892-894 | stores the flag under the app's `visibility_` key; afterwards the app is hidden exactly when not visible, and every other app's hidden state is unchanged |
| Utilities.BadgeIconForUser | src/com/pixeldust/launcher/Utilities.java:199-211 | the icon is returned unchanged for a null user or the own user, and badged by the package manager otherwise |
| Utilities.BadgeWithBitmap | src/com/pixeldust/launcher/Utilities.java:236-247 | the whole badge is drawn into a `badgeSize` square at the bottom-right corner of the target |
| AppInfo.InitFlags | src/com/pixeldust/launcher/AppInfo.java:99-110 | system apps get no flags; other apps are downloaded, and updated-system exactly when that application flag is set; no other bit is ever set |
| AppInfo.DisabledFlags | src/com/pixeldust/launcher/AppInfo.java:87-92 | the suspended bit exactly when suspended, the quiet-user bit exactly when quiet mode is on, no other bit; non-zero exactly when either holds |
| AppInfo.MakeLaunchIntent | src/com/pixeldust/launcher/AppInfo.java:135-143 | the intent is a launcher app target for the component, with the new-task and reset flags and the user's serial number as its only extra |
| AppInfo.AppInfo.constructor | src/com/pixeldust/launcher/AppInfo.java:82-97 | component, user and container set, flags from `initFlags`, disabled exactly when suspended or in quiet mode, title and icon from the cache, and the launch intent for the component |
| AppInfo.AppInfo.Copy | src/com/pixeldust/launcher/AppInfo.java:112-120 | copies every field; the title goes through the regex trim as written, so trailing whitespace stays |
| AppInfo.AppInfo.ToComponentKey | src/com/pixeldust/launcher/AppInfo.java:131-133 | the key of the entry's component and user |
| AppInfo.AppInfo.IsDisabled | src/com/pixeldust/launcher/AppInfo.java:145-148 | a suspended or quiet-profile bit makes the entry disabled, and an enabled entry has no disabled bit; for a constructed entry, disabled exactly when the activity is suspended or the profile is in quiet mode (the constructor's contract) |
| AppInfo.ToComponentKeyIdentifies | src/com/pixeldust/launcher/AppInfo.java:131-133 | two entries have the same key exactly when component and user agree |
| AppInfo.AppInfo.LoadTitleAndIcon | src/com/pixeldust/launcher/AppInfo.java:94 | title and icon become the cache's entry for the key; other fields keep their values |
| IconPackProvider.Attribute | src/com/pixeldust/launcher/IconPackProvider.java:83-105 | `getAttributeValue`: the attribute's value when present, null exactly when absent |
| IconPackProvider.GetImg | src/com/pixeldust/launcher/IconPackProvider.java:130-141 | the first of `img`, `img0` to `img3` that is present; null exactly when all five are absent |
| IconPackProvider.CalendarOfComponentString | src/com/pixeldust/launcher/IconPackProvider.java:115-117 | for `ComponentInfo{pkg/cls}` the calendar name extracted is `pkg` |
| IconPackProvider.CalendarOfNothingAfterBrace | src/com/pixeldust/launcher/IconPackProvider.java:115-120 | when nothing follows `{` before the `/`, the split throws and no calendar is recorded |
| IconPackProvider.Parse | src/com/pixeldust/launcher/IconPackProvider.java:76-126 | the tag loop fails with an `XmlPullParserException` exactly when the event stream holds a parse error |
| IconPackProvider.ItemSetsDrawable | src/com/pixeldust/launcher/IconPackProvider.java:82-94 | an `item` tag with component and drawable adds or updates that component's drawable and keeps its prefix; every other entry and field is unchanged |
| IconPackProvider.CalendarSetsPrefix | src/com/pixeldust/launcher/IconPackProvider.java:103-121 | a `calendar` tag with component and prefix sets that component's prefix, keeps its drawable, and appends the extracted calendar when there is one |
| IconPackProvider.IgnoredEvents | src/com/pixeldust/launcher/IconPackProvider.java:77-122 | non-start events, unknown tags and tags missing a required attribute leave the parse state unchanged |
| IconPackProvider.LastIconBackWins | src/com/pixeldust/launcher/IconPackProvider.java:95-96 | the icon back is the `getImg` of the last `iconback` tag |
| IconPackProvider.ScaleDefault | src/com/pixeldust/launcher/IconPackProvider.java:70-102 | without a `scale` tag the scale is 1 |
| IconPackProvider.ParseAppFilter | src/com/pixeldust/launcher/IconPackProvider.java:68-128 | with no app filter resource the pack is empty; otherwise it is the parse result, a parse error propagating as the exception |
| IconPackProvider.IconPackProvider.constructor | src/com/pixeldust/launcher/IconPackProvider.java:18 | the cache of icon packs starts empty |
| IconPackProvider.IconPackProvider.LoadIconPack | src/com/pixeldust/launcher/IconPackProvider.java:36-48 | exactly the package's cache entry is (re)set: the parsed pack, or null when parsing throws |
| IconPackProvider.IconPackProvider.LoadAndGetIconPack | src/com/pixeldust/launcher/IconPackProvider.java:24-34 | no pack for an empty preference; a cached pack is returned without reloading; an uncached one is loaded first, adding just that key, whose entry is the parsed pack or null when parsing throws; a non-string preference throws `ClassCastException` |
| PopupDataProvider.FromItemInfo | src/com/pixeldust/launcher/popup/PopupDataProvider.java:170 | the package/user key of an item's target component; throws when the item has no target component |
| PopupDataProvider.FromNotificationsAt | src/com/pixeldust/launcher/popup/PopupDataProvider.java:79-87 | the rebuilt map has a key exactly for the notifications' packages and users, each holding exactly their notification keys |
| PopupDataProvider.FromNotificationsNoEmpty | src/com/pixeldust/launcher/popup/PopupDataProvider.java:79-87 | the rebuilt map holds no empty badge |
| PopupDataProvider.PendingDone | src/com/pixeldust/launcher/popup/PopupDataProvider.java:88-96 | the loop over the new keys leaves exactly the keys that are new or whose badge `shouldBeInvalidated` says changed, plus the old keys that vanished |
| PopupDataProvider.Invalidated | src/com/pixeldust/launcher/popup/PopupDataProvider.java:77-96 | the copy-and-prune loop yields exactly the keys to update |
| PopupDataProvider.KeepKeys | src/com/pixeldust/launcher/popup/PopupDataProvider.java:112-118 | the iterator loop keeps exactly the keys without a badge, whose badge icon changed, or all of them when forced |
| PopupDataProvider.PopupDataProvider.constructor | src/com/pixeldust/launcher/popup/PopupDataProvider.java:28-34 | no badges, no deep shortcuts and no icon updates yet |
| PopupDataProvider.PopupDataProvider.UpdateLauncherIconBadges | src/com/pixeldust/launcher/popup/PopupDataProvider.java:111-122 | the launcher is told about the kept keys, and only when some key is kept |
| PopupDataProvider.PopupDataProvider.OnNotificationPosted | src/com/pixeldust/launcher/popup/PopupDataProvider.java:37-56 | the notification is added to or (when filtered out) removed from the key's badge; an emptied badge is dropped; a new badge is created only for a shown notification; the update is forced exactly when the badge's keys changed |
| PopupDataProvider.PopupDataProvider.OnNotificationRemoved | src/com/pixeldust/launcher/popup/PopupDataProvider.java:59-71 | a notification the badge holds is removed, an emptied badge dropped, and the key's icon updated; otherwise nothing happens |
| PopupDataProvider.PopupDataProvider.CollectBadges | src/com/pixeldust/launcher/popup/PopupDataProvider.java:79-87 | the loop builds the badges of the notification list |
| PopupDataProvider.PopupDataProvider.OnNotificationFullRefresh | src/com/pixeldust/launcher/popup/PopupDataProvider.java:74-105 | a null list changes nothing; otherwise the badges are rebuilt from the list and the launcher is told about exactly the invalidated keys |
| PopupDataProvider.PopupDataProvider.SetDeepShortcutMap | src/com/pixeldust/launcher/popup/PopupDataProvider.java:149-151 | the map is replaced and nothing else changes |
| PopupDataProvider.PopupDataProvider.GetShortcutIdsForItem | src/com/pixeldust/launcher/popup/PopupDataProvider.java:153-166 | empty for items without shortcut support or target; otherwise the ids stored for the target component and user, empty when none |
| PopupDataProvider.PopupDataProvider.GetBadgeInfoForItem | src/com/pixeldust/launcher/popup/PopupDataProvider.java:168-173 | null without shortcut support; otherwise the badge for the item's package and user, never an empty one |
| PopupDataProvider.PopupDataProvider.GetNotificationKeysForItem | src/com/pixeldust/launcher/popup/PopupDataProvider.java:175-178 | when the item supports shortcuts, exactly the keys of the badge stored under its package and user (none without a badge); none otherwise; throws exactly when the lookup does |
| WidgetsModel.ProviderItems | src/com/pixeldust/launcher/model/WidgetsModel.java:47-50 | one widget item per provider, in order |
| WidgetsModel.ShortcutItems | src/com/pixeldust/launcher/model/WidgetsModel.java:51-53 | one widget item per shortcut activity, in order |
| WidgetsModel.CollectProviders | src/com/pixeldust/launcher/model/WidgetsModel.java:47-50 | the provider loop collects exactly `ProviderItems` |
| WidgetsModel.CollectShortcuts | src/com/pixeldust/launcher/model/WidgetsModel.java:51-53 | the shortcut loop appends exactly `ShortcutItems` |
| WidgetsModel.PackageItemInfo.constructor | src/com/pixeldust/launcher/model/WidgetsModel.java:103-104 | a header for the package and user |
| WidgetsModel.UnmatchedMember | src/com/pixeldust/launcher/model/WidgetsModel.java:79-85 | an item survives pruning exactly when it was in the group and is not of the key's package and user |
| WidgetsModel.Prune | src/com/pixeldust/launcher/model/WidgetsModel.java:79-85 | the iterator loop removes exactly the items of the key's package and user and keeps the rest in order |
| WidgetsModel.FiledMember | src/com/pixeldust/launcher/model/WidgetsModel.java:90-111 | an item is filed under a package exactly when it is in the list, the filter shows it and its package is that one |
| WidgetsModel.FiledEmpty | src/com/pixeldust/launcher/model/WidgetsModel.java:90-111 | a package gets no items exactly when no shown item belongs to it |
| WidgetsModel.GroupUserCases | src/com/pixeldust/launcher/model/WidgetsModel.java:102-108 | a header's user, once the own user, stays so; otherwise it is the user of the last item filed under it (or its first user) |
| WidgetsModel.GroupedAt | src/com/pixeldust/launcher/model/WidgetsModel.java:90-111 | after the loop a header holds its old items followed by exactly the shown items of its package, in list order |
| WidgetsModel.GroupedWellGrouped | src/com/pixeldust/launcher/model/WidgetsModel.java:90-111 | every group holds only shown items of its own package, and this is preserved by the loop |
| WidgetsModel.UsersAt | src/com/pixeldust/launcher/model/WidgetsModel.java:102-108 | the header users after the loop are the per-package fold of the user rule over the items filed there |
| WidgetsModel.FileItem | src/com/pixeldust/launcher/model/WidgetsModel.java:99-110 | one step of the loop: a shown item is added to its package's header, fresh or reused, with the header's user updated by the user rule; a hidden item changes nothing |
| WidgetsModel.Regroup | src/com/pixeldust/launcher/model/WidgetsModel.java:88-111 | the loop's final map is `Grouped` of the items, new headers are fresh, and the header users are `Users` of the items |
| WidgetsModel.RebuiltFromItems | src/com/pixeldust/launcher/model/WidgetsModel.java:68-111 | after a full rebuild there is one non-empty group per package with a shown item, holding exactly that package's shown items |
| WidgetsModel.KeyedKeepsOnePerPackage | src/com/pixeldust/launcher/model/WidgetsModel.java:71-111 | with a key and only that package's items, the rebuild keeps one group per package |
| WidgetsModel.KeyedDuplicatesOtherPackages | src/com/pixeldust/launcher/model/WidgetsModel.java:47-111 | with a key, an item of another package that already has a group gets a second group for that package |
| WidgetsModel.WidgetsModel.constructor | src/com/pixeldust/launcher/model/WidgetsModel.java:29-32 | the widget list starts empty |
| WidgetsModel.WidgetsModel.IsEmpty | src/com/pixeldust/launcher/model/WidgetsModel.java:38-40 | true exactly when no header is stored |
| WidgetsModel.WidgetsModel.Clear | src/com/pixeldust/launcher/model/WidgetsModel.java:64-87 | without a key the list is cleared; with a key the first group of that package, if any, is reused and pruned of the key's items |
| WidgetsModel.WidgetsModel.SetWidgetsAndShortcuts | src/com/pixeldust/launcher/model/WidgetsModel.java:63-115 | the list becomes the cleared list with the shown items grouped under their package headers; the headers' users follow the user rule from the reused header's old user; every other old header keeps its user |
| WidgetsModel.WidgetsModel.Update | src/com/pixeldust/launcher/model/WidgetsModel.java:42-61 | as written: all providers and the key's shortcuts are collected; a failing platform call leaves the list and every header's user as they were; without a key there is one group per package; with a key, other packages already listed get duplicate groups; on success the new map is the old one with the key's package cleared, regrouped over the collected items, the headers' users follow the user rule and every other old header keeps its user |
| WidgetsModel.WidgetsModel.UpdateForKey | src/com/pixeldust/launcher/model/WidgetsModel.java:42-61 | corrected: only the key's providers are collected, so with a key the list keeps one group per package; on success the new map is the cleared map regrouped over the collected items, the headers' users follow the user rule and every other old header keeps its user; a failure changes no list and no user |
| WidgetsModel.ProvidersForKey | src/com/pixeldust/launcher/model/WidgetsModel.java:47 | the providers asked for with a key all belong to the key's package and user |
| IconPack.GetDrawable | src/com/pixeldust/launcher/IconPack.java:58-70 | a drawable named after the resource exactly when the pack has that drawable, null otherwise |
| IconPack.GetIcon | src/com/pixeldust/launcher/IconPack.java:40-56 | a mapped component gets its pack drawable (or null when missing); an unmapped one gets a masked icon when any of back, upon or mask is set and building it does not throw; otherwise null |
| IconPack.MappingWinsOverMask | src/com/pixeldust/launcher/IconPack.java:41-45 | for a mapped component the mask images play no part |
| Settings.AllAppsAlpha | src/com/pixeldust/launcher/settings/Settings.java:145-148 | without the preference the alpha is 255; for an opacity in [0, 1] it is the truncation of 255 times it; a non-float value throws |
| Settings.ExecStmt | src/com/pixeldust/launcher/settings/Settings.java:66-140 | a statement either completes and logs its calls or throws a class-cast error before any call |
| Settings.Entry | src/com/pixeldust/launcher/settings/Settings.java:65-141 | a key enters its labelled case exactly when it is a label, the default otherwise |
| Settings.LabelsBeforeDefault | src/com/pixeldust/launcher/settings/Settings.java:65-141 | every labelled case comes before `default` |
| Settings.FallThrough | src/com/pixeldust/launcher/settings/Settings.java:115-140 | a case without `break` that completes runs on into the next case |
| Settings.Stop | src/com/pixeldust/launcher/settings/Settings.java:65-141 | the switch ends at a `break`, a throw or the default case |
| Settings.BreakingCase | src/com/pixeldust/launcher/settings/Settings.java:65-141 | entering a case that ends in `break` runs that case alone |
| Settings.NonPrefKeyIgnored | src/com/pixeldust/launcher/settings/Settings.java:63 | a key not starting with `pref_` makes no call |
| Settings.LightStatusBarKey | src/com/pixeldust/launcher/settings/Settings.java:66-68 | the light-status-bar key only re-applies the status bar, without recreating |
| Settings.PinchToOverviewKey | src/com/pixeldust/launcher/settings/Settings.java:69-72 | the pinch key only re-applies the drag layer's accessibility state |
| Settings.PullDownSearchKey | src/com/pixeldust/launcher/settings/Settings.java:73-75 | the pull-down key only re-initialises the pull-down |
| Settings.HotseatExtractedColorsKey | src/com/pixeldust/launcher/settings/Settings.java:76-80 | the extracted-colours key recolours the hotseat, then the page indicator |
| Settings.HapticKey | src/com/pixeldust/launcher/settings/Settings.java:81-83 | haptic feedback is set from the stored boolean (default false); a non-boolean throws before any call |
| Settings.OpacityKey | src/com/pixeldust/launcher/settings/Settings.java:84-86 | the opacity key sets the all-apps alpha computed from the preference |
| Settings.ShowHiddenAppsKey | src/com/pixeldust/launcher/settings/Settings.java:87-89 | the show-hidden key only reloads the apps |
| Settings.WorkspaceGridKeys | src/com/pixeldust/launcher/settings/Settings.java:90-94 | the row and column keys run the customization hook, then refresh the workspace |
| Settings.HotseatIconsKey | src/com/pixeldust/launcher/settings/Settings.java:95-105 | the hotseat key runs the customization hook, then posts a hotseat refresh |
| Settings.IgnoredKeys | src/com/pixeldust/launcher/settings/Settings.java:106-110 | the scroll-state, mic and white-icon keys make no call |
| Settings.BlurKeys | src/com/pixeldust/launcher/settings/Settings.java:111-114 | the blur keys only update the wallpaper |
| Settings.KillThenRecreateKeys | src/com/pixeldust/launcher/settings/Settings.java:115-125 | six keys fall through: a kill, then a recreate, and nothing else |
| Settings.RecreateOnlyKeys | src/com/pixeldust/launcher/settings/Settings.java:122-125 | the transparent-hotseat and pixel-bar keys only recreate |
| Settings.IconKeys | src/com/pixeldust/launcher/settings/Settings.java:126-129 | the icon-pack and pixel-style keys only reload the icons |
| Settings.HideAppLabelsKey | src/com/pixeldust/launcher/settings/Settings.java:130-132 | the hide-labels key only reloads the workspace |
| Settings.NowTabKey | src/com/pixeldust/launcher/settings/Settings.java:133-140 | false removes the client, true schedules a kill, and both fall through to `reloadAll(false)`; a non-boolean throws |
| Settings.UnlistedPrefKey | src/com/pixeldust/launcher/settings/Settings.java:139-140 | any other `pref_` key reloads everything |
| Settings.Settings.constructor | src/com/pixeldust/launcher/settings/Settings.java:42-47 | construction runs `init`: the log holds exactly the all-apps opacity call, and nothing when reading the opacity throws |
| Settings.Settings.Init | src/com/pixeldust/launcher/settings/Settings.java:57-59 | `init` applies the all-apps opacity and nothing else |
| Settings.Settings.RunCase | src/com/pixeldust/launcher/settings/Settings.java:65-141 | one case body appends exactly its calls to the log |
| Settings.Settings.RunSwitch | src/com/pixeldust/launcher/settings/Settings.java:65-141 | the fall-through loop from a case appends exactly the switch's calls from there |
| Settings.Settings.OnSharedPreferenceChanged | src/com/pixeldust/launcher/settings/Settings.java:61-143 | the listener appends exactly the calls of the dispatched switch and reports its throw |
| StringSetAppFilter.ShouldShowApp | src/com/pixeldust/launcher/StringSetAppFilter.java:9-12 | shown when hidden apps are shown; otherwise shown exactly when not hidden; a non-boolean preference throws |
| StringSetAppFilter.ShownIffVisible | src/com/pixeldust/launcher/StringSetAppFilter.java:11 | with hidden apps not shown, an app is shown exactly when its visibility flag says so, and an unmarked app is shown |
| ExtractionUtils.PopulationSplits | src/com/pixeldust/launcher/dynamicui/ExtractionUtils.java:96-107 | legible and illegible populations add up to the whole population |
| ExtractionUtils.LegibleIsStrictMajority | src/com/pixeldust/launcher/dynamicui/ExtractionUtils.java:106 | legible beats illegible exactly when it is a strict majority |
| ExtractionUtils.IsLegibleOnWallpaper | src/com/pixeldust/launcher/dynamicui/ExtractionUtils.java:96-107 | the loop's answer is "legible population exceeds illegible population" |
| ExtractionUtils.IsSuperLight | src/com/pixeldust/launcher/dynamicui/ExtractionUtils.java:84-86 | white text is not legible on at least half the wallpaper |
| ExtractionUtils.IsSuperDark | src/com/pixeldust/launcher/dynamicui/ExtractionUtils.java:88-90 | black text is not legible on at least half the wallpaper |
| ExtractionUtils.GetWallpaperId | src/com/pixeldust/launcher/dynamicui/ExtractionUtils.java:76-82 | the system wallpaper id from Android N on, -1 before |
| ExtractionUtils.HasWallpaperIdChanged | src/com/pixeldust/launcher/dynamicui/ExtractionUtils.java:65-74 | false before Android N; otherwise whether the system id differs from the saved one (default -1) |
| ExtractionUtils.CacheKeysDistinct | src/com/pixeldust/launcher/dynamicui/ExtractionUtils.java:120-130 | the two `_cache` keys differ from each other and from the watched keys |
| ExtractionUtils.SyncCache | src/com/pixeldust/launcher/dynamicui/ExtractionUtils.java:124-131 | a stale or missing cache entry reports a change and is rewritten to the value; otherwise nothing changes |
| ExtractionUtils.NoCachesMeansChanged | src/com/pixeldust/launcher/dynamicui/ExtractionUtils.java:117-133 | with no cache entries the check reports a change and writes both |
| ExtractionUtils.CheckIdempotent | src/com/pixeldust/launcher/dynamicui/ExtractionUtils.java:117-133 | a second check right after the first reports no change and writes nothing |
| ExtractionUtils.SyncCacheIdempotent | src/com/pixeldust/launcher/dynamicui/ExtractionUtils.java:124-131 | syncing one key twice changes nothing the second time |
| ExtractionUtils.ChangedIffEitherStale | src/com/pixeldust/launcher/dynamicui/ExtractionUtils.java:117-133 | a change is reported exactly when either cache entry differs from its preference |
| ExtractionUtils.HasExtractionPreferencesChanged | src/com/pixeldust/launcher/dynamicui/ExtractionUtils.java:117-133 | the method's result and new preferences are those of the check |
| ExtractionUtils.ShouldStartColorExtraction | src/com/pixeldust/launcher/dynamicui/ExtractionUtils.java:51 | the `||` short-circuits: a changed wallpaper id starts extraction without touching the caches |
| UserManagerCompat.SerialsByUser | src/com/pixeldust/launcher/compat/UserManagerCompatVL.java:55-60 | the user-to-serial map is keyed by exactly the profiles |
| UserManagerCompat.UsersBySerial | src/com/pixeldust/launcher/compat/UserManagerCompatVL.java:55-59 | the cached serials are exactly the serials of the profiles |
| UserManagerCompat.UsersBySerialSound | src/com/pixeldust/launcher/compat/UserManagerCompatVL.java:55-60 | every cached serial names a profile with that serial, and every profile's serial is cached |
| UserManagerCompat.RoundTrip | src/com/pixeldust/launcher/compat/UserManagerCompatVL.java:55-60 | with distinct serials a profile's serial leads back to the profile |
| UserManagerCompat.IsQuietModeEnabled | src/com/pixeldust/launcher/compat/UserManagerCompatVL.java:105-108 | always false |
| UserManagerCompat.IsUserUnlocked | src/com/pixeldust/launcher/compat/UserManagerCompatVL.java:119-122 | always true |
| UserManagerCompat.IsDemoUser | src/com/pixeldust/launcher/compat/UserManagerCompatVL.java:124-127 | always false |
| UserManagerCompat.GetBadgedLabelForUser | src/com/pixeldust/launcher/compat/UserManagerCompatVL.java:87-93 | a null user leaves the label; otherwise the package manager's badged label |
| UserManagerCompat.UserManagerCompatVL.constructor | src/com/pixeldust/launcher/compat/UserManagerCompatVL.java:42-46 | the cache starts disabled |
| UserManagerCompat.UserManagerCompatVL.EnableAndResetCache | src/com/pixeldust/launcher/compat/UserManagerCompatVL.java:48-63 | both maps are rebuilt from the profiles (empty for a null list) and stay consistent |
| UserManagerCompat.UserManagerCompatVL.GetSerialNumberForUser | src/com/pixeldust/launcher/compat/UserManagerCompatVL.java:129-137 | the cached serial, 0 for an unknown user, or the system's when the cache is off |
| UserManagerCompat.UserManagerCompatVL.GetUserForSerialNumber | src/com/pixeldust/launcher/compat/UserManagerCompatVL.java:110-117 | the cached user (null for an unknown serial), or the system's when the cache is off |
| UserManagerCompat.UserManagerCompatVL.SerialOfCachedUser | src/com/pixeldust/launcher/compat/UserManagerCompatVL.java:110-137 | a user found by serial in the cache maps back to that serial |
| UserManagerCompat.UserManagerCompatVL.GetUserProfiles | src/com/pixeldust/launcher/compat/UserManagerCompatVL.java:65-85 | the cached users without repeats, else a copy of the system list, else empty |
| UserManagerCompat.UserManagerCompatVL.GetUserCreationTime | src/com/pixeldust/launcher/compat/UserManagerCompatVL.java:95-103 | a stored time is returned unchanged; otherwise `now` is stored under the serial's key and returned |
| AppWidgetManagerCompat.BadgeLocation | src/com/pixeldust/launcher/compat/AppWidgetManagerCompatVL.java:112-128 | a square no larger than the badge size, the width or the height below the minimum top; its bottom edge is the image's bottom, so it is not above the minimum top; left-aligned in RTL, right-aligned otherwise |
| AppWidgetManagerCompat.GetBadgeBitmap | src/com/pixeldust/launcher/compat/AppWidgetManagerCompatVL.java:105-131 | the own user's preview is returned untouched; any other is badged at `BadgeLocation` |
| AppWidgetManagerCompat.AllProvidersMember | src/com/pixeldust/launcher/compat/AppWidgetManagerCompatVL.java:59-65 | a provider is listed exactly when some profile has it |
| AppWidgetManagerCompat.GetAllProviders | src/com/pixeldust/launcher/compat/AppWidgetManagerCompatVL.java:59-65 | the loop concatenates the profiles' providers in order |
| AppWidgetManagerCompat.PutAllKeys | src/com/pixeldust/launcher/compat/AppWidgetManagerCompatVL.java:161-164 | the inner loop adds one key per provider, and each new value is a provider of that component and user |
| AppWidgetManagerCompat.ProvidersMapKeys | src/com/pixeldust/launcher/compat/AppWidgetManagerCompatVL.java:157-167 | the keys are exactly the (provider, profile) pairs installed, each holding a provider of that component from that profile |
| AppWidgetManagerCompat.PutProviders | src/com/pixeldust/launcher/compat/AppWidgetManagerCompatVL.java:161-164 | the inner loop computes `PutAll` |
| AppWidgetManagerCompat.GetAllProvidersMap | src/com/pixeldust/launcher/compat/AppWidgetManagerCompatVL.java:157-167 | the loops compute `ProvidersMap` |
| AppWidgetManagerCompat.FindProvider | src/com/pixeldust/launcher/compat/AppWidgetManagerCompatVL.java:146-154 | null exactly when no installed provider matches; otherwise the first match |
| DeviceProfile.CalculateCellWidth | src/com/pixeldust/launcher/DeviceProfile.java:385-387 | throws exactly for zero columns; otherwise the floor of the width share |
| DeviceProfile.CalculateCellHeight | src/com/pixeldust/launcher/DeviceProfile.java:389-391 | throws exactly for zero rows; otherwise the floor of the height share |
| DeviceProfile.GetCurrentWidth | src/com/pixeldust/launcher/DeviceProfile.java:504-506 | the shorter side |
| DeviceProfile.GetCurrentHeight | src/com/pixeldust/launcher/DeviceProfile.java:508-510 | the longer side |
| DeviceProfile.CurrentSides | src/com/pixeldust/launcher/DeviceProfile.java:504-510 | current width never exceeds current height and together they are the two sides |
| DeviceProfile.GetOverviewModeButtonBarHeight | src/com/pixeldust/launcher/DeviceProfile.java:378-383 | the zone height clamped to [min, max]: never above max, at least min when min <= max, unchanged when in range |
| DeviceProfile.MinReal | src/com/pixeldust/launcher/DeviceProfile.java:338-339 | the smaller operand |
| DeviceProfile.TabletPaddingX | src/com/pixeldust/launcher/DeviceProfile.java:332-339 | the tablet's horizontal padding is never negative for a non-negative width |
| DeviceProfile.GetWorkspacePadding | src/com/pixeldust/launcher/DeviceProfile.java:324-352 | symmetric left and right, room for hotseat and indicator at the bottom, the full-width and phone cases exactly, at least the top padding |
| DeviceProfile.GetWorkspacePageSpacing | src/com/pixeldust/launcher/DeviceProfile.java:366-376 | at least the default; large tablets use the default; otherwise pages do not overhang the padding |
| DeviceProfile.GetAbsoluteOpenFolderBounds | src/com/pixeldust/launcher/DeviceProfile.java:357-364 | folders sit below the drop target bar and above the hotseat and page indicator, within the available width |
| DeviceProfile.GetContainerPadding | src/com/pixeldust/launcher/DeviceProfile.java:516-527 | two equal paddings: none on a phone, otherwise half the gutters and inset, rounded down |
| DeviceProfile.FolderCellSize | src/com/pixeldust/launcher/DeviceProfile.java:266-271 | throws for zero folder columns or rows; otherwise cells fit both the icon size and the screen share, and the drawable padding is not negative |
| DeviceProfile.ShareBounds | src/com/pixeldust/launcher/DeviceProfile.java:266-269 | a size at most the share of a total fits that many times into the total |
| DeviceProfile.RemoveFirst | src/com/pixeldust/launcher/DeviceProfile.java:195-199 | `List.remove(Object)` drops one occurrence |
| DeviceProfile.RemoveFirstUnique | src/com/pixeldust/launcher/DeviceProfile.java:195-199 | removing an absent listener changes nothing; in a list without repeats the listener is gone afterwards |
| DeviceProfile.RemoveAppended | src/com/pixeldust/launcher/DeviceProfile.java:189-199 | removing a listener just added restores the list |
| DeviceProfile.DeviceProfile.constructor | src/com/pixeldust/launcher/DeviceProfile.java:124-187 | no listeners yet |
| DeviceProfile.DeviceProfile.AddLauncherLayoutChangedListener | src/com/pixeldust/launcher/DeviceProfile.java:189-193 | appends a listener not yet present, otherwise no change; no repeats |
| DeviceProfile.DeviceProfile.RemoveLauncherLayoutChangedListener | src/com/pixeldust/launcher/DeviceProfile.java:195-199 | removes the listener if present; afterwards it is absent; no repeats |
| CheckLongPressHelper.RemoveCallbacks | src/com/pixeldust/launcher/CheckLongPressHelper.java:70 | `View.removeCallbacks`: every posting of that check is removed, every other posting kept as many times as it was posted |
| CheckLongPressHelper.View.constructor | src/com/pixeldust/launcher/CheckLongPressHelper.java:36-40 | a view with its parent, focus and pressed state and an empty queue |
| CheckLongPressHelper.CheckLongPressHelper.constructor | src/com/pixeldust/launcher/CheckLongPressHelper.java:25-49 | bound to the view, nothing performed or pending, the 300 ms default timeout |
| CheckLongPressHelper.CheckLongPressHelper.SetLongPressTimeout | src/com/pixeldust/launcher/CheckLongPressHelper.java:54-56 | only the timeout changes |
| CheckLongPressHelper.CheckLongPressHelper.PostCheckForLongPress | src/com/pixeldust/launcher/CheckLongPressHelper.java:58-65 | resets the performed flag, reuses or creates the pending check, and posts it with the timeout |
| CheckLongPressHelper.CheckLongPressHelper.CancelLongPress | src/com/pixeldust/launcher/CheckLongPressHelper.java:67-73 | resets the flag, removes every posting of the pending check and forgets it |
| CheckLongPressHelper.CheckLongPressHelper.RunCheck | src/com/pixeldust/launcher/CheckLongPressHelper.java:34-45 | a handled long click on an attached, focused view that was not yet performed sets the flag and unpresses the view; otherwise nothing changes |
| CheckLongPressHelper.CheckLongPressHelper.HasPerformedLongPress | src/com/pixeldust/launcher/CheckLongPressHelper.java:75-77 | the performed flag |
| ShortcutKey.NewShortcutKey | src/com/pixeldust/launcher/shortcuts/ShortcutKey.java:16-19 | throws on a null package or id; otherwise the key of that package, id and user |
| ShortcutKey.KeyInjective | src/com/pixeldust/launcher/shortcuts/ShortcutKey.java:16-23 | two keys built from non-null parts are equal exactly when their packages, users and ids are |
| ShortcutKey.GetIdRebuildsKey | src/com/pixeldust/launcher/shortcuts/ShortcutKey.java:16-23 | `getId()` returns the id the key was built with: every key is the constructor's key of its package, its user and its id |
| ShortcutKey.FromInfo | src/com/pixeldust/launcher/shortcuts/ShortcutKey.java:25-28 | the key of the shortcut's package, user and id |
| ShortcutKey.FromIntent | src/com/pixeldust/launcher/shortcuts/ShortcutKey.java:30-34 | throws on a null intent, package or shortcut-id extra; otherwise the key of those |
| ShortcutKey.FromShortcutInfo | src/com/pixeldust/launcher/shortcuts/ShortcutKey.java:36-38 | the intent key of the promised intent and the item's user |
| ShortcutKey.FromItemInfo | src/com/pixeldust/launcher/shortcuts/ShortcutKey.java:40-42 | the intent key of the item's intent and user |
| ShortcutKey.IntentRoundTrip | src/com/pixeldust/launcher/shortcuts/ShortcutKey.java:30-34 | an intent carrying a package and shortcut id gives the key of exactly those |

## Left out

- The Android platform is not modelled: views, drawing, resources, threads and services. Each service the code calls appears as a parameter or a field, and the model states the calling code's behaviour for every answer the parameter's type allows. The app filter's type admits no exception (see below).
- The classes `IconCache`, `BadgeInfo`, `NotificationListener`, `MultiHashMap`, `LauncherAppsCompat`, `ShortcutInfo` and `CustomIconDrawable` are not part of this model. What the modelled code needs of them is a parameter: a lookup, an invalidation predicate, a constructor that may throw, a promised intent.
- `synchronized` blocks (`UserManagerCompatVL`, `AllAppsList`) are modelled as plain sequential code. Concurrency is out of scope.
- `ExtractionUtils.startColorExtractionServiceIfNecessary` runs its check on the thread pool and starts a service. Only the check it runs is modelled, as `ShouldStartColorExtraction`.
- ExtractionUtils.IsLegibleOnWallpaper: the contrast test `isLegible` is a parameter, since it is floating-point colour arithmetic.
- ExtractionUtils.IsLegibleOnWallpaper: the population sums are unbounded integers and do not wrap at 32 bits.
- `DeviceProfile`: Java `int` overflow is not modelled. All layout values are unbounded integers.
- `DeviceProfile`: the constructor's resource loading, `updateAvailableDimensions`, `updateIconSize` (apart from the folder-cell bounds, modelled by `FolderCellSize`) and `layout` are float-based view sizing. They are left out, and the sizes they compute are fields of `Layout`.
- `DeviceProfile`: the listener notification loop (`DeviceProfile.java:497-501`) calls into views and is left out.
- DeviceProfile.GetWorkspacePadding: takes a fresh `Rect`. The `recycle` argument, which the caller's `Rect` aliases, is not modelled.
- DeviceProfile.TabletPaddingX: computes with exact reals. Its contract states only that the padding is not negative, and 32-bit float rounding (`gapScale`, the `0.14f` constant) is not modelled.
- DeviceProfile.GetOverviewModeButtonBarHeight: takes the zone ratio as an exact real. The cast is Java's (truncate, then saturate), but float rounding of the product is not modelled.
- Settings.AllAppsAlpha: treats the stored float as an exact real when multiplying by 255.
- `Settings`: the singleton `getInstance` and the listener registration are left out. `OnAccessibilityStateChanged` is recorded without the drag layer's flag it passes.
- Utilities.Trim: modelled only for strings without Java line terminators. On those, the regex's `.` and `$` behave as stated. Titles with line breaks are outside the model.
- `PopupDataProvider`: a badge is modelled as its set of notification keys. Counts, icons and `trimNotifications` are not modelled, and whether a badge icon changed comes from a parameter.
- `IconPackProvider.clearCache` deletes files and is left out. The resource lookup and bitmap decoding of `getAppFilter`/`getDrawable` are inputs: an event stream and a resource-exists predicate. Float parsing of the `scale` tag is a parameter.
- `IconPack`: the source's constructors disagree. `IconPackProvider.java:127` calls an 8-argument constructor with `IconInfo` values, while `IconPack.java:29-38` has a 7-argument one with drawable names. The parser's result and the pack are therefore two separate values.
- `IconPack`'s getters are the fields of the `IconPack` datatype. They return exactly what was constructed.
- AllAppsList.AllAppsList.AddOrRefreshAll: a refreshed entry is stated to hold what the icon cache gives for it (`Loaded`). The icon cache's title loading is a fixed lookup, and `ItemInfo` state other than title and icon is not modelled.
- AllAppsList.AllAppsList.Add: the app filter is a total predicate. `StringSetAppFilter.shouldShowApp` can throw `ClassCastException` (`StringSetAppFilter.ShouldShowApp` models that throw on its own), and in the source that exception escapes `AllAppsList.add` and the update in progress. The model does not propagate it.
- WidgetsModel.WidgetsModel.Update: an exception from the app filter is caught by the `catch (Exception)` at `WidgetsModel.java:54-58`, leaving the widget map partly rebuilt. That path is not modelled, since the filter cannot throw here.
- AppInfo.AppInfo.Copy: requires a title without Java line terminators, the same condition `Utilities.Trim` is modelled under.
- Settings.Settings.constructor: a `ClassCastException` from `init` would abort the Java constructor. The model's constructor still returns, with no call logged, and the listener registration is left out.
- Java.ParseInt: accepts only ASCII digits. Java's `Integer.parseInt` also accepts the other Unicode decimal digits (through `Character.digit`), so a hue preference written with them parses in the source but throws in the model.
- UserManagerCompat.UserManagerCompatVL.GetUserProfiles: `HashMap.keySet()` order is unspecified, so the order of the cached users is any order. The contract states the set and the absence of duplicates.
- AppWidgetManagerCompat.GetBadgeBitmap: only the choice of the badge rectangle is modelled. The drawing into the bitmap is not.
- AppWidgetManagerCompat.GetAllProviders: takes the profile list as a sequence. A null list from the platform is not modelled, since the source does not handle one.
- `CheckLongPressHelper`: the view's message queue is a sequence of postings. Timing and the moment a posted check runs are not modelled; `RunCheck` is what running it does.
- `WidgetsModel`: the span-size test (`WidgetsModel.java:91-97`) has empty branches and filters nothing, so the model has no counterpart. Icon and title loading for the headers (`WidgetsModel.java:112-114`) is left out.

## Findings

| source | as written | input that shows it | evidently intended | confidence | as-written member | corrected member |
|---|---|---|---|---|---|---|
| src/com/pixeldust/launcher/Utilities.java:602-611 | the greedy `(.*)` swallows trailing whitespace, and `\|` inside the character classes is a literal bar | `trim("a ")` is `"a "`, and `trim("\|a")` is `"a"` | remove whitespace (including non-breaking spaces) at both ends and nothing else, as the doc comment at lines 598-601 says | not executed | Utilities.TrimAsWrittenKeepsTrailingSpace | Utilities.TrimWhitespaceCorrect |
| src/com/pixeldust/launcher/model/WidgetsModel.java:47 | `getAllProviders()` is called with the key commented out, so every provider is collected even for a single-package update | a key for package `a` while the list already holds a group for package `b`, and `b` has a shown provider: `b` gets a second group | with a key, collect only that package's providers, so the list keeps one group per package | not executed | WidgetsModel.KeyedDuplicatesOtherPackages | WidgetsModel.KeyedKeepsOnePerPackage |
