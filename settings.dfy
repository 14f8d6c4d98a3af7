/** `Settings`: the launcher's reaction to a changed preference. The listener
    is a `switch` over the key with deliberate fall-throughs; the model keeps
    the switch as a table of cases in source order and a map from labels to
    cases, runs it the way Java does (enter at the labelled case or the
    default, run bodies until a `break`), and records the launcher calls it
    makes in an action log. */
module Settings {
  import opened Java
  import opened Prefs

  /** The calls into the launcher that the listener makes. */
  datatype Action =
    | ActivateLightStatusBar(recreate: bool)
    | OnAccessibilityStateChanged   // with the drag layer's own accessibility flag
    | InitPullDown
    | UpdateHotseatColor
    | UpdatePageIndicatorColor
    | SetHapticFeedbackEnabled(enabled: bool)
    | SetAllAppsAlpha(alpha: int)
    | ReloadAllApps
    | CustomizationHook
    | RefreshWorkspaceChildren
    | PostHotseatRefresh           // `runOnUiThread` of a hotseat refresh
    | ScheduleUpdateWallpaper
    | ScheduleKill
    | ScheduleRecreate
    | ScheduleReloadIcons
    | ReloadWorkspace
    | RemoveClient
    | ReloadAll(showWorkspace: bool)

  const KEY_PREF_LIGHT_STATUS_BAR := "pref_lightStatusBar"
  const KEY_PREF_PINCH_TO_OVERVIEW := "pref_pinchToOverview"
  const KEY_PREF_PULLDOWN_SEARCH := "pref_pulldownSearch"
  const KEY_PREF_HOTSEAT_EXTRACTED_COLORS := "pref_hotseatShouldUseExtractedColors"
  const KEY_PREF_HAPTIC_FEEDBACK := "pref_enableHapticFeedback"
  const KEY_PREF_KEEP_SCROLL_STATE := "pref_keepScrollState"
  const KEY_FULL_WIDTH_SEARCHBAR := "pref_fullWidthSearchbar"
  const KEY_SHOW_PIXEL_BAR := "pref_showPixelBar"
  const KEY_SHOW_VOICE_SEARCH_BUTTON := "pref_showMic"
  const KEY_PREF_ALL_APPS_OPACITY := "pref_allAppsOpacitySB"
  const KEY_PREF_SHOW_HIDDEN_APPS := "pref_showHidden"
  const KEY_PREF_NUM_COLS := "pref_numCols"
  const KEY_PREF_NUM_ROWS := "pref_numRows"
  const KEY_PREF_NUM_HOTSEAT_ICONS := "pref_numHotseatIcons"
  const KEY_PREF_ICON_SCALE := "pref_iconScaleSB"
  const KEY_PREF_ICON_TEXT_SCALE := "pref_iconTextScaleSB"
  const KEY_PREF_ICON_PACK_PACKAGE := "pref_iconPackPackage"
  const KEY_PREF_PIXEL_STYLE_ICONS := "pref_pixelStyleIcons"
  const KEY_PREF_HIDE_APP_LABELS := "pref_hideAppLabels"
  const KEY_PREF_FULL_WIDTH_WIDGETS := "pref_fullWidthWidgets"
  const KEY_PREF_SHOW_NOW_TAB := "pref_showGoogleNowTab"
  const KEY_PREF_TRANSPARENT_HOTSEAT := "pref_isHotseatTransparent"
  const KEY_PREF_ENABLE_DYNAMIC_UI := "pref_enableDynamicUi"
  const KEY_PREF_ENABLE_BLUR := "pref_enableBlur"
  const KEY_PREF_BLUR_RADIUS := "pref_blurRadius"
  const KEY_PREF_WHITE_GOOGLE_ICON := "pref_enableWhiteGoogleIcon"
  const KEY_PREF_DARK_THEME := "pref_enableDarkTheme"

  /** One statement of a case body. The three that read the preferences
      are kept apart from the plain calls. */
  datatype Stmt =
    | Call(action: Action)
    | SetHapticFeedbackFromPref     // setHapticFeedbackEnabled(prefs.getBoolean(key, false))
    | ApplyAllAppsOpacity           // applyAllAppsOpacity(prefs)
    | RemoveClientOrScheduleKill    // the `pref_showGoogleNowTab` if/else

  /** The body of a group of `case` labels; `breaks` says whether it ends
      in `break` (otherwise control falls into the next case). */
  datatype Case = Case(body: seq<Stmt>, breaks: bool)

  /** The switch of `onSharedPreferenceChanged`, in source order; the last
      entry is `default`. The labels that enter each case are in `LABELS`. */
  const CASES: seq<Case> := [
    /* 0 */ Case([Call(ActivateLightStatusBar(false))], true),
    /* 1 */ Case([Call(OnAccessibilityStateChanged)], true),
    /* 2 */ Case([Call(InitPullDown)], true),
    /* 3 */ Case([Call(UpdateHotseatColor), Call(UpdatePageIndicatorColor)], true),
    /* 4 */ Case([SetHapticFeedbackFromPref], true),
    /* 5 */ Case([ApplyAllAppsOpacity], true),
    /* 6 */ Case([Call(ReloadAllApps)], true),
    /* 7 */ Case([Call(CustomizationHook), Call(RefreshWorkspaceChildren)], true),
    /* 8 */ Case([Call(CustomizationHook), Call(PostHotseatRefresh)], true),
    /* 9 */ Case([], true),
    /* 10 */ Case([Call(ScheduleUpdateWallpaper)], true),
    /* 11 */ Case([Call(ScheduleKill)], false),
    /* 12 */ Case([Call(ScheduleRecreate)], true),
    /* 13 */ Case([Call(ScheduleReloadIcons)], true),
    /* 14 */ Case([Call(ReloadWorkspace)], true),
    /* 15 */ Case([RemoveClientOrScheduleKill], false),
    /* default */ Case([Call(ReloadAll(false))], true)
  ]

  /** The `case` labels: each key with the position in `CASES` of the case
      it enters. */
  const LABELS: map<string, nat> := map[
    KEY_PREF_LIGHT_STATUS_BAR := 0,
    KEY_PREF_PINCH_TO_OVERVIEW := 1,
    KEY_PREF_PULLDOWN_SEARCH := 2,
    KEY_PREF_HOTSEAT_EXTRACTED_COLORS := 3,
    KEY_PREF_HAPTIC_FEEDBACK := 4,
    KEY_PREF_ALL_APPS_OPACITY := 5,
    KEY_PREF_SHOW_HIDDEN_APPS := 6,
    KEY_PREF_NUM_COLS := 7, KEY_PREF_NUM_ROWS := 7,
    KEY_PREF_NUM_HOTSEAT_ICONS := 8,
    KEY_PREF_KEEP_SCROLL_STATE := 9, KEY_SHOW_VOICE_SEARCH_BUTTON := 9, KEY_PREF_WHITE_GOOGLE_ICON := 9,
    KEY_PREF_ENABLE_BLUR := 10, KEY_PREF_BLUR_RADIUS := 10,
    KEY_PREF_ICON_SCALE := 11, KEY_PREF_ICON_TEXT_SCALE := 11, KEY_FULL_WIDTH_SEARCHBAR := 11,
    KEY_PREF_FULL_WIDTH_WIDGETS := 11, KEY_PREF_ENABLE_DYNAMIC_UI := 11, KEY_PREF_DARK_THEME := 11,
    KEY_PREF_TRANSPARENT_HOTSEAT := 12, KEY_SHOW_PIXEL_BAR := 12,
    KEY_PREF_ICON_PACK_PACKAGE := 13, KEY_PREF_PIXEL_STYLE_ICONS := 13,
    KEY_PREF_HIDE_APP_LABELS := 14,
    KEY_PREF_SHOW_NOW_TAB := 15
  ]

  const DEFAULT_CASE := |CASES| - 1

  /** What running some statements did: the calls made, in order, and the
      exception that ended the run, if any. */
  datatype Outcome = Outcome(log: seq<Action>, thrown: Option<Exception>)

  /** `log` was done without a throw, then `o` happened. */
  function After(log: seq<Action>, o: Outcome): Outcome
  {
    Outcome(log + o.log, o.thrown)
  }

  /** `applyAllAppsOpacity(prefs)`: the alpha passed to the all-apps
      controller, `(int) (opacity * 255)` with opacity defaulting to 1. */
  function AllAppsAlpha(prefs: SharedPreferences): (r: Result<int>)
    reads prefs
    ensures KEY_PREF_ALL_APPS_OPACITY !in prefs.values ==> r == Ok(255)
    ensures var opacity := prefs.GetFloat(KEY_PREF_ALL_APPS_OPACITY, 1.0);
            opacity.Ok? && 0.0 <= opacity.value <= 1.0
            ==> r.Ok? && 0 <= r.value <= 255 && r.value as real <= opacity.value * 255.0 < r.value as real + 1.0
    ensures r.Throws? <==> KEY_PREF_ALL_APPS_OPACITY in prefs.values && !prefs.values[KEY_PREF_ALL_APPS_OPACITY].FloatValue?
  {
    var opacity := prefs.GetFloat(KEY_PREF_ALL_APPS_OPACITY, 1.0);
    if opacity.Throws? then Throws(opacity.error) else Ok(FloatToInt(opacity.value * 255.0))
  }

  /** One statement: the launcher calls it makes or the exception a
      preference read throws before any call. */
  function ExecStmt(s: Stmt, prefs: SharedPreferences, key: string): (o: Outcome)
    reads prefs
    ensures o.thrown.Some? ==> o.log == [] && o.thrown == Some(ClassCast)
  {
    match s
    case Call(a) => Outcome([a], None)
    case SetHapticFeedbackFromPref =>
      var enabled := prefs.GetBoolean(key, false);
      if enabled.Throws? then Outcome([], Some(enabled.error))
      else Outcome([SetHapticFeedbackEnabled(enabled.value)], None)
    case ApplyAllAppsOpacity =>
      var alpha := AllAppsAlpha(prefs);
      if alpha.Throws? then Outcome([], Some(alpha.error))
      else Outcome([SetAllAppsAlpha(alpha.value)], None)
    case RemoveClientOrScheduleKill =>
      var showTab := prefs.GetBoolean(key, true);
      if showTab.Throws? then Outcome([], Some(showTab.error))
      else if !showTab.value then Outcome([RemoveClient], None)
      else Outcome([ScheduleKill], None)
  }

  /** A case body, statement by statement, stopping at a throw. */
  function ExecBody(body: seq<Stmt>, prefs: SharedPreferences, key: string): Outcome
    reads prefs
  {
    if body == [] then Outcome([], None)
    else
      var first := ExecStmt(body[0], prefs, key);
      if first.thrown.Some? then first
      else After(first.log, ExecBody(body[1..], prefs, key))
  }

  /** Every label enters a case before the default. */
  lemma LabelsBeforeDefault()
    ensures forall key :: key in LABELS ==> LABELS[key] < DEFAULT_CASE
  {
  }

  /** The case where the switch enters: the one the key labels, or the
      default. */
  function Entry(key: string): (r: nat)
    ensures r <= DEFAULT_CASE
    ensures r < DEFAULT_CASE <==> key in LABELS
  {
    LabelsBeforeDefault();
    if key in LABELS then LABELS[key] else DEFAULT_CASE
  }

  /** Running the switch from case `i`: each body in turn until one ends in
      `break`, the default is done, or a statement throws. */
  function RunFrom(i: nat, prefs: SharedPreferences, key: string): Outcome
    requires i <= DEFAULT_CASE
    reads prefs
    decreases DEFAULT_CASE - i
  {
    var body := ExecBody(CASES[i].body, prefs, key);
    if body.thrown.Some? || CASES[i].breaks || i == DEFAULT_CASE then body
    else After(body.log, RunFrom(i + 1, prefs, key))
  }

  /** `onSharedPreferenceChanged(prefs, key)` as a whole: nothing for a key
      outside the `pref_` namespace, otherwise the switch. */
  function Dispatch(prefs: SharedPreferences, key: string): Outcome
    reads prefs
  {
    if !StartsWith(key, "pref_") then Outcome([], None) else RunFrom(Entry(key), prefs, key)
  }

  /** One turn of the switch loop: case `i` ran to its end without a
      throw and falls through, so what is left is the run from `i + 1`. */
  lemma FallThrough(prefs: SharedPreferences, key: string, start: nat, i: nat, log: seq<Action>)
    requires start <= DEFAULT_CASE && i < DEFAULT_CASE && !CASES[i].breaks
    requires ExecBody(CASES[i].body, prefs, key).thrown.None?
    requires RunFrom(start, prefs, key) == After(log, RunFrom(i, prefs, key))
    ensures RunFrom(start, prefs, key)
            == After(log + ExecBody(CASES[i].body, prefs, key).log, RunFrom(i + 1, prefs, key))
  {
  }

  /** The last turn of the switch loop: case `i` threw, ended in `break`
      or was the default, so what it did is what is left. */
  lemma Stop(prefs: SharedPreferences, key: string, start: nat, i: nat, log: seq<Action>)
    requires start <= DEFAULT_CASE && i <= DEFAULT_CASE
    requires ExecBody(CASES[i].body, prefs, key).thrown.Some? || CASES[i].breaks || i == DEFAULT_CASE
    requires RunFrom(start, prefs, key) == After(log, RunFrom(i, prefs, key))
    ensures RunFrom(start, prefs, key).log == log + ExecBody(CASES[i].body, prefs, key).log
    ensures RunFrom(start, prefs, key).thrown == ExecBody(CASES[i].body, prefs, key).thrown
  {
  }

  /** A body of one plain call makes that call. */
  lemma OneCall(body: seq<Stmt>, prefs: SharedPreferences, key: string)
    requires |body| == 1 && body[0].Call?
    ensures ExecBody(body, prefs, key) == Outcome([body[0].action], None)
  {
    assert body[1..] == [];
  }

  /** A body of one statement does what that statement does. */
  lemma OneStmt(body: seq<Stmt>, prefs: SharedPreferences, key: string)
    requires |body| == 1
    ensures ExecBody(body, prefs, key) == ExecStmt(body[0], prefs, key)
  {
    assert body[1..] == [];
  }

  /** A body of two plain calls makes both, in order. */
  lemma TwoCalls(body: seq<Stmt>, prefs: SharedPreferences, key: string)
    requires |body| == 2 && body[0].Call? && body[1].Call?
    ensures ExecBody(body, prefs, key) == Outcome([body[0].action, body[1].action], None)
  {
    OneCall(body[1..], prefs, key);
  }

  /** A case ending in `break` does its body and stops. */
  lemma BreakingCase(i: nat, prefs: SharedPreferences, key: string)
    requires i <= DEFAULT_CASE && CASES[i].breaks
    ensures RunFrom(i, prefs, key) == ExecBody(CASES[i].body, prefs, key)
  {
  }

  /** A `pref_` key enters the switch at its `Entry`. */
  lemma EntersAt(prefs: SharedPreferences, key: string, i: nat)
    requires StartsWith(key, "pref_") && Entry(key) == i
    ensures i <= DEFAULT_CASE && Dispatch(prefs, key) == RunFrom(i, prefs, key)
  {
  }

  /** A case of one plain call ending in `break` makes that call. */
  lemma PlainCase(prefs: SharedPreferences, key: string, i: nat, a: Action)
    requires i <= DEFAULT_CASE && CASES[i] == Case([Call(a)], true)
    ensures RunFrom(i, prefs, key) == Outcome([a], None)
  {
    OneCall(CASES[i].body, prefs, key);
    BreakingCase(i, prefs, key);
  }

  /** A case of two plain calls ending in `break` makes both, in order. */
  lemma TwoCallCase(prefs: SharedPreferences, key: string, i: nat, a: Action, b: Action)
    requires i <= DEFAULT_CASE && CASES[i] == Case([Call(a), Call(b)], true)
    ensures RunFrom(i, prefs, key) == Outcome([a, b], None)
  {
    TwoCalls(CASES[i].body, prefs, key);
    BreakingCase(i, prefs, key);
  }

  /** A key outside the `pref_` namespace makes no call. */
  lemma NonPrefKeyIgnored(prefs: SharedPreferences, key: string)
    requires !StartsWith(key, "pref_")
    ensures Dispatch(prefs, key) == Outcome([], None)
  {
  }

  /** The scroll-state, mic and white-Google-icon keys make no call. */
  lemma IgnoredKeys(prefs: SharedPreferences, key: string)
    requires key in {KEY_PREF_KEEP_SCROLL_STATE, KEY_SHOW_VOICE_SEARCH_BUTTON, KEY_PREF_WHITE_GOOGLE_ICON}
    ensures Dispatch(prefs, key) == Outcome([], None)
  {
  }

  /** Icon scale, text scale, full-width search bar, full-width widgets,
      dynamic UI and dark theme fall through: kill, then recreate. */
  lemma KillThenRecreateKeys(prefs: SharedPreferences, key: string)
    requires key in {KEY_PREF_ICON_SCALE, KEY_PREF_ICON_TEXT_SCALE, KEY_FULL_WIDTH_SEARCHBAR,
                     KEY_PREF_FULL_WIDTH_WIDGETS, KEY_PREF_ENABLE_DYNAMIC_UI, KEY_PREF_DARK_THEME}
    ensures Dispatch(prefs, key) == Outcome([ScheduleKill, ScheduleRecreate], None)
  {
    assert StartsWith(key, "pref_") && Entry(key) == 11;
    EntersAt(prefs, key, 11);
    OneCall(CASES[11].body, prefs, key);
    PlainCase(prefs, key, 12, ScheduleRecreate);
  }

  /** The transparent-hotseat and pixel-bar keys only recreate. */
  lemma RecreateOnlyKeys(prefs: SharedPreferences, key: string)
    requires key in {KEY_PREF_TRANSPARENT_HOTSEAT, KEY_SHOW_PIXEL_BAR}
    ensures Dispatch(prefs, key) == Outcome([ScheduleRecreate], None)
  {
    assert StartsWith(key, "pref_") && Entry(key) == 12;
    EntersAt(prefs, key, 12);
    PlainCase(prefs, key, 12, ScheduleRecreate);
  }

  /** The icon-pack and pixel-style keys only reload the icons. */
  lemma IconKeys(prefs: SharedPreferences, key: string)
    requires key in {KEY_PREF_ICON_PACK_PACKAGE, KEY_PREF_PIXEL_STYLE_ICONS}
    ensures Dispatch(prefs, key) == Outcome([ScheduleReloadIcons], None)
  {
    assert StartsWith(key, "pref_") && Entry(key) == 13;
    EntersAt(prefs, key, 13);
    PlainCase(prefs, key, 13, ScheduleReloadIcons);
  }

  /** The blur keys only update the wallpaper. */
  lemma BlurKeys(prefs: SharedPreferences, key: string)
    requires key in {KEY_PREF_ENABLE_BLUR, KEY_PREF_BLUR_RADIUS}
    ensures Dispatch(prefs, key) == Outcome([ScheduleUpdateWallpaper], None)
  {
    assert StartsWith(key, "pref_") && Entry(key) == 10;
    EntersAt(prefs, key, 10);
    PlainCase(prefs, key, 10, ScheduleUpdateWallpaper);
  }

  /** The row and column keys run the customization hook, then refresh the
      workspace. */
  lemma WorkspaceGridKeys(prefs: SharedPreferences, key: string)
    requires key in {KEY_PREF_NUM_COLS, KEY_PREF_NUM_ROWS}
    ensures Dispatch(prefs, key) == Outcome([CustomizationHook, RefreshWorkspaceChildren], None)
  {
    assert StartsWith(key, "pref_") && Entry(key) == 7;
    EntersAt(prefs, key, 7);
    TwoCallCase(prefs, key, 7, CustomizationHook, RefreshWorkspaceChildren);
  }

  /** The hotseat-icons key runs the customization hook, then posts a
      hotseat refresh. */
  lemma HotseatIconsKey(prefs: SharedPreferences)
    ensures Dispatch(prefs, KEY_PREF_NUM_HOTSEAT_ICONS) == Outcome([CustomizationHook, PostHotseatRefresh], None)
  {
    assert StartsWith(KEY_PREF_NUM_HOTSEAT_ICONS, "pref_") && Entry(KEY_PREF_NUM_HOTSEAT_ICONS) == 8;
    EntersAt(prefs, KEY_PREF_NUM_HOTSEAT_ICONS, 8);
    TwoCallCase(prefs, KEY_PREF_NUM_HOTSEAT_ICONS, 8, CustomizationHook, PostHotseatRefresh);
  }

  /** The light-status-bar key re-applies the status bar colour without recreating. */
  lemma LightStatusBarKey(prefs: SharedPreferences)
    ensures Dispatch(prefs, KEY_PREF_LIGHT_STATUS_BAR) == Outcome([ActivateLightStatusBar(false)], None)
  {
    assert StartsWith(KEY_PREF_LIGHT_STATUS_BAR, "pref_") && Entry(KEY_PREF_LIGHT_STATUS_BAR) == 0;
    EntersAt(prefs, KEY_PREF_LIGHT_STATUS_BAR, 0);
    PlainCase(prefs, KEY_PREF_LIGHT_STATUS_BAR, 0, ActivateLightStatusBar(false));
  }

  /** The pinch-to-overview key re-applies the drag layer's accessibility state. */
  lemma PinchToOverviewKey(prefs: SharedPreferences)
    ensures Dispatch(prefs, KEY_PREF_PINCH_TO_OVERVIEW) == Outcome([OnAccessibilityStateChanged], None)
  {
    assert StartsWith(KEY_PREF_PINCH_TO_OVERVIEW, "pref_") && Entry(KEY_PREF_PINCH_TO_OVERVIEW) == 1;
    EntersAt(prefs, KEY_PREF_PINCH_TO_OVERVIEW, 1);
    PlainCase(prefs, KEY_PREF_PINCH_TO_OVERVIEW, 1, OnAccessibilityStateChanged);
  }

  /** The pull-down-search key re-initialises the workspace's pull-down. */
  lemma PullDownSearchKey(prefs: SharedPreferences)
    ensures Dispatch(prefs, KEY_PREF_PULLDOWN_SEARCH) == Outcome([InitPullDown], None)
  {
    assert StartsWith(KEY_PREF_PULLDOWN_SEARCH, "pref_") && Entry(KEY_PREF_PULLDOWN_SEARCH) == 2;
    EntersAt(prefs, KEY_PREF_PULLDOWN_SEARCH, 2);
    PlainCase(prefs, KEY_PREF_PULLDOWN_SEARCH, 2, InitPullDown);
  }

  /** The extracted-colours key recolours the hotseat, then the page
      indicator. */
  lemma HotseatExtractedColorsKey(prefs: SharedPreferences)
    ensures Dispatch(prefs, KEY_PREF_HOTSEAT_EXTRACTED_COLORS)
            == Outcome([UpdateHotseatColor, UpdatePageIndicatorColor], None)
  {
    assert StartsWith(KEY_PREF_HOTSEAT_EXTRACTED_COLORS, "pref_") && Entry(KEY_PREF_HOTSEAT_EXTRACTED_COLORS) == 3;
    EntersAt(prefs, KEY_PREF_HOTSEAT_EXTRACTED_COLORS, 3);
    TwoCallCase(prefs, KEY_PREF_HOTSEAT_EXTRACTED_COLORS, 3, UpdateHotseatColor, UpdatePageIndicatorColor);
  }

  /** The show-hidden-apps key reloads the app list. */
  lemma ShowHiddenAppsKey(prefs: SharedPreferences)
    ensures Dispatch(prefs, KEY_PREF_SHOW_HIDDEN_APPS) == Outcome([ReloadAllApps], None)
  {
    assert StartsWith(KEY_PREF_SHOW_HIDDEN_APPS, "pref_") && Entry(KEY_PREF_SHOW_HIDDEN_APPS) == 6;
    EntersAt(prefs, KEY_PREF_SHOW_HIDDEN_APPS, 6);
    PlainCase(prefs, KEY_PREF_SHOW_HIDDEN_APPS, 6, ReloadAllApps);
  }

  /** The hide-labels key reloads the workspace. */
  lemma HideAppLabelsKey(prefs: SharedPreferences)
    ensures Dispatch(prefs, KEY_PREF_HIDE_APP_LABELS) == Outcome([ReloadWorkspace], None)
  {
    assert StartsWith(KEY_PREF_HIDE_APP_LABELS, "pref_") && Entry(KEY_PREF_HIDE_APP_LABELS) == 14;
    EntersAt(prefs, KEY_PREF_HIDE_APP_LABELS, 14);
    PlainCase(prefs, KEY_PREF_HIDE_APP_LABELS, 14, ReloadWorkspace);
  }

  /** `pref_showGoogleNowTab`: removes the client when the value is false,
      otherwise schedules a kill, and falls through to `reloadAll(false)`;
      a value of another type throws before any call. */
  lemma NowTabKey(prefs: SharedPreferences)
    ensures var v := prefs.GetBoolean(KEY_PREF_SHOW_NOW_TAB, true);
            Dispatch(prefs, KEY_PREF_SHOW_NOW_TAB)
            == if v.Throws? then Outcome([], Some(ClassCast))
               else if !v.value then Outcome([RemoveClient, ReloadAll(false)], None)
               else Outcome([ScheduleKill, ReloadAll(false)], None)
  {
    var key := KEY_PREF_SHOW_NOW_TAB;
    assert Entry(key) == 15;
    OneStmt(CASES[15].body, prefs, key);
    OneCall(CASES[DEFAULT_CASE].body, prefs, key);
    BreakingCase(DEFAULT_CASE, prefs, key);
  }

  /** Any other `pref_` key reloads everything. */
  lemma UnlistedPrefKey(prefs: SharedPreferences, key: string)
    requires StartsWith(key, "pref_") && key !in LABELS
    ensures Dispatch(prefs, key) == Outcome([ReloadAll(false)], None)
  {
    OneCall(CASES[DEFAULT_CASE].body, prefs, key);
  }

  /** The haptic key passes the stored flag, false by default. */
  lemma HapticKey(prefs: SharedPreferences)
    ensures var v := prefs.GetBoolean(KEY_PREF_HAPTIC_FEEDBACK, false);
            Dispatch(prefs, KEY_PREF_HAPTIC_FEEDBACK)
            == if v.Throws? then Outcome([], Some(ClassCast)) else Outcome([SetHapticFeedbackEnabled(v.value)], None)
  {
    assert Entry(KEY_PREF_HAPTIC_FEEDBACK) == 4;
    OneStmt(CASES[4].body, prefs, KEY_PREF_HAPTIC_FEEDBACK);
    BreakingCase(4, prefs, KEY_PREF_HAPTIC_FEEDBACK);
  }

  /** The opacity key passes the all-apps alpha. */
  lemma OpacityKey(prefs: SharedPreferences)
    ensures var a := AllAppsAlpha(prefs);
            Dispatch(prefs, KEY_PREF_ALL_APPS_OPACITY)
            == if a.Throws? then Outcome([], Some(ClassCast)) else Outcome([SetAllAppsAlpha(a.value)], None)
  {
    assert Entry(KEY_PREF_ALL_APPS_OPACITY) == 5;
    OneStmt(CASES[5].body, prefs, KEY_PREF_ALL_APPS_OPACITY);
    BreakingCase(5, prefs, KEY_PREF_ALL_APPS_OPACITY);
  }

  lemma AppendAssoc(a: seq<Action>, b: seq<Action>, c: seq<Action>)
    ensures (a + b) + c == a + (b + c)
  {
  }

  class Settings {
    /** The launcher calls made so far. */
    var actions: seq<Action>

    /** `Settings(launcher)`: registers itself as the preference listener
        and runs `init(prefs)`, so the only call made so far is the one
        applying the all-apps opacity (none when reading it throws). */
    constructor (prefs: SharedPreferences)
      ensures actions == ExecStmt(ApplyAllAppsOpacity, prefs, KEY_PREF_ALL_APPS_OPACITY).log
    {
      actions := [];
      new;
      var thrown := Init(prefs);
    }

    /** `init(prefs)`, which the constructor runs: applies the all-apps opacity. */
    method Init(prefs: SharedPreferences) returns (thrown: Option<Exception>)
      modifies this
      ensures var o := ExecStmt(ApplyAllAppsOpacity, prefs, KEY_PREF_ALL_APPS_OPACITY);
              actions == old(actions) + o.log && thrown == o.thrown
    {
      var o := ExecStmt(ApplyAllAppsOpacity, prefs, KEY_PREF_ALL_APPS_OPACITY);
      actions := actions + o.log;
      thrown := o.thrown;
    }

    /** Runs the body of case `i`, appending its calls to the log. */
    method RunCase(prefs: SharedPreferences, key: string, i: nat) returns (thrown: Option<Exception>)
      requires i <= DEFAULT_CASE
      modifies this
      ensures actions == old(actions) + ExecBody(CASES[i].body, prefs, key).log
      ensures thrown == ExecBody(CASES[i].body, prefs, key).thrown
    {
      var o := ExecBody(CASES[i].body, prefs, key);
      actions := actions + o.log;
      thrown := o.thrown;
    }

    /** `onSharedPreferenceChanged(prefs, key)`: nothing outside the `pref_`
        namespace; otherwise the switch, entered at the matching case. */
    method OnSharedPreferenceChanged(prefs: SharedPreferences, key: string) returns (thrown: Option<Exception>)
      modifies this
      ensures actions == old(actions) + Dispatch(prefs, key).log
      ensures thrown == Dispatch(prefs, key).thrown
    {
      if !StartsWith(key, "pref_") {
        return None;
      }
      thrown := RunSwitch(prefs, key, Entry(key));
    }

    /** The switch from case `start` on: runs bodies until a `break`, the
        end of the switch or a throw. */
    method RunSwitch(prefs: SharedPreferences, key: string, start: nat) returns (thrown: Option<Exception>)
      requires start <= DEFAULT_CASE
      modifies this
      ensures actions == old(actions) + RunFrom(start, prefs, key).log
      ensures thrown == RunFrom(start, prefs, key).thrown
    {
      var i := start;
      ghost var log: seq<Action> := [];
      while true
        invariant i <= DEFAULT_CASE
        invariant actions == old(actions) + log
        invariant RunFrom(start, prefs, key) == After(log, RunFrom(i, prefs, key))
        decreases DEFAULT_CASE - i
      {
        ghost var body := ExecBody(CASES[i].body, prefs, key);
        thrown := RunCase(prefs, key, i);
        if thrown.Some? || CASES[i].breaks || i == DEFAULT_CASE {
          Stop(prefs, key, start, i, log);
          AppendAssoc(old(actions), log, body.log);
          return;
        }
        FallThrough(prefs, key, start, i, log);
        AppendAssoc(old(actions), log, body.log);
        log := log + body.log;
        i := i + 1;
      }
    }
  }
}
