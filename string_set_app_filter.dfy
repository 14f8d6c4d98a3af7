/** `StringSetAppFilter`: the app filter that hides the apps the user has
    hidden, unless the "show hidden apps" preference is on. */
module StringSetAppFilter {
  import opened Java
  import opened Platform
  import opened Prefs
  import opened Utilities

  const KEY_SHOW_HIDDEN := "pref_showHidden"

  /** `shouldShowApp(app, context)`: the `||` short-circuits, so the
      visibility entry is read only when hidden apps are not shown. */
  function ShouldShowApp(prefs: SharedPreferences, app: ComponentName): (r: Result<bool>)
    reads prefs
    ensures prefs.GetBoolean(KEY_SHOW_HIDDEN, false) == Ok(true) ==> r == Ok(true)
    ensures prefs.GetBoolean(KEY_SHOW_HIDDEN, false) == Ok(false)
            ==> r == (var hidden := IsAppHidden(prefs, FlattenToString(app));
                      if hidden.Throws? then Throws(hidden.error) else Ok(!hidden.value))
    ensures prefs.GetBoolean(KEY_SHOW_HIDDEN, false).Throws? ==> r == Throws(ClassCast)
  {
    var showHidden := prefs.GetBoolean(KEY_SHOW_HIDDEN, false);
    if showHidden.Throws? then Throws(showHidden.error)
    else if showHidden.value then Ok(true)
    else
      var hidden := IsAppHidden(prefs, FlattenToString(app));
      if hidden.Throws? then Throws(hidden.error) else Ok(!hidden.value)
  }

  /** With hidden apps not shown, an app is shown exactly when its stored
      visibility flag is true, and an app never marked is shown. */
  lemma ShownIffVisible(prefs: SharedPreferences, app: ComponentName)
    requires KEY_SHOW_HIDDEN !in prefs.values || prefs.values[KEY_SHOW_HIDDEN] == BoolValue(false)
    ensures VisibilityKey(FlattenToString(app)) !in prefs.values ==> ShouldShowApp(prefs, app) == Ok(true)
    ensures forall visible: bool :: prefs.Contains(VisibilityKey(FlattenToString(app)))
              && prefs.values[VisibilityKey(FlattenToString(app))] == BoolValue(visible)
              ==> ShouldShowApp(prefs, app) == Ok(visible)
  {
  }
}
