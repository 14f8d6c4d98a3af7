/** The pure helpers of `Utilities`: range clamping, title trimming, the
    database selection query, the launch-intent test, the hue-to-colour
    mapping, the per-app visibility preference and the badge placement. */
module Utilities {
  import opened Java
  import opened Platform
  import opened Prefs

  // ---------------------------------------------------------------------
  // boundToRange

  /** `boundToRange(value, lowerBound, upperBound)`. */
  function BoundToRange(value: int, lowerBound: int, upperBound: int): (r: int)
    ensures lowerBound <= upperBound ==> lowerBound <= r <= upperBound
    ensures lowerBound <= value <= upperBound ==> r == value
    ensures value < lowerBound ==> r == lowerBound
    ensures lowerBound <= upperBound < value ==> r == upperBound
    ensures upperBound < lowerBound ==> r == lowerBound
  {
    Max(lowerBound, Min(value, upperBound))
  }

  // ---------------------------------------------------------------------
  // trim

  /** `Character.isSpaceChar`: the Unicode space, line and paragraph separators. */
  predicate IsJavaSpaceChar(c: char)
  {
    c == ' ' || c == '\U{00A0}' || c == '\U{1680}' || ('\U{2000}' <= c <= '\U{200A}')
    || c == '\U{2028}' || c == '\U{2029}' || c == '\U{202F}' || c == '\U{205F}' || c == '\U{3000}'
  }

  /** The regex class `\s`: ASCII whitespace. */
  predicate IsRegexSpace(c: char)
  {
    c == ' ' || c == '\t' || c == '\n' || c == '\U{000B}' || c == '\U{000C}' || c == '\r'
  }

  /** The character class `[\s|\p{javaSpaceChar}]` of the trim pattern: note
      that `|` inside brackets is a literal bar. */
  predicate IsTrimPatternChar(c: char)
  {
    IsRegexSpace(c) || c == '|' || IsJavaSpaceChar(c)
  }

  /** The characters the regex `.` does not match and before which `$`
      may match. */
  predicate IsLineTerminator(c: char)
  {
    c == '\n' || c == '\r' || c == '\U{0085}' || c == '\U{2028}' || c == '\U{2029}'
  }

  predicate NoLineTerminator(s: string)
  {
    forall i :: 0 <= i < |s| ==> !IsLineTerminator(s[i])
  }

  /** Drops the maximal leading run of characters satisfying the trim class. */
  function StripLeadingTrimChars(s: string): (r: string)
    ensures |r| <= |s| && r == s[|s| - |r|..]
    ensures forall i :: 0 <= i < |s| - |r| ==> IsTrimPatternChar(s[i])
    ensures r != [] ==> !IsTrimPatternChar(r[0])
  {
    if s != [] && IsTrimPatternChar(s[0]) then StripLeadingTrimChars(s[1..]) else s
  }

  /** `trim(s)` AS WRITTEN: `replaceAll("$1")` with the pattern
      `^[\s|\p{javaSpaceChar}]*(.*)[\s|\p{javaSpaceChar}]*$`. On a string
      without line terminators the first match spans the whole input, the
      leading class takes its longest run, the greedy `(.*)` takes all the
      rest, and the trailing class matches the empty string. */
  function Trim(s: Option<string>): (r: Option<string>)
    requires s.Some? ==> NoLineTerminator(s.value)
    ensures r.None? <==> s.None?
    ensures r.Some? ==> r.value == StripLeadingTrimChars(s.value)
  {
    if s.None? then None else Some(StripLeadingTrimChars(s.value))
  }

  /** The result of `trim` is a suffix of its input made by dropping only
      characters of the trim class, and it starts with none of them. */
  lemma TrimIsMaximalLeadingStrip(s: string)
    requires NoLineTerminator(s)
    ensures var r := Trim(Some(s)).value;
      (exists k :: 0 <= k <= |s| && r == s[k..] && forall i :: 0 <= i < k ==> IsTrimPatternChar(s[i]))
      && (r != [] ==> !IsTrimPatternChar(r[0]))
  {
    var r := Trim(Some(s)).value;
    var k := |s| - |r|;
    assert r == s[k..];
  }

  lemma TrimIdempotent(s: string)
    requires NoLineTerminator(s)
    ensures NoLineTerminator(Trim(Some(s)).value)
    ensures Trim(Trim(Some(s))) == Trim(Some(s))
  {
    var r := Trim(Some(s)).value;
    assert forall i :: 0 <= i < |r| ==> r[i] == s[|s| - |r| + i];
  }

  /** The greedy group keeps whatever follows the first character outside
      the trim class, trailing whitespace included. */
  lemma {:induction false} TrimKeepsTail(s: string, tail: string)
    requires StripLeadingTrimChars(s) != []
    ensures StripLeadingTrimChars(s + tail) == StripLeadingTrimChars(s) + tail
  {
    assert (s + tail)[0] == s[0];
    if IsTrimPatternChar(s[0]) {
      assert (s + tail)[1..] == s[1..] + tail;
      TrimKeepsTail(s[1..], tail);
    }
  }

  /** As written, `trim` keeps trailing whitespace, against its own
      documentation: the greedy group swallows it before the trailing class
      is tried. */
  lemma TrimAsWrittenKeepsTrailingSpace()
    ensures Trim(Some("a ")) == Some("a ")
  {
    assert NoLineTerminator("a ") by {
      assert !IsLineTerminator("a "[0]) && !IsLineTerminator("a "[1]);
    }
    assert !IsTrimPatternChar('a');
    assert StripLeadingTrimChars("a ") == "a ";
  }

  /** As written, `trim` strips a leading `|`, which the character class
      contains literally. */
  lemma TrimAsWrittenStripsBar()
    ensures Trim(Some("|a")) == Some("a")
  {
    assert NoLineTerminator("|a") by {
      assert !IsLineTerminator("|a"[0]) && !IsLineTerminator("|a"[1]);
    }
    var s := "|a";
    var t := s[1..];
    assert s[0] == '|' && t == "a";
    assert IsTrimPatternChar(s[0]) && !IsTrimPatternChar(t[0]);
    assert StripLeadingTrimChars(t) == t;
    assert StripLeadingTrimChars(s) == StripLeadingTrimChars(t);
  }

  /** The whitespace the documentation of `trim` promises to remove:
      `\s` and the Java space characters (no bar). */
  predicate IsTrimWhitespace(c: char)
  {
    IsRegexSpace(c) || IsJavaSpaceChar(c)
  }

  function StripLeadingWhitespace(s: string): (r: string)
    ensures |r| <= |s| && r == s[|s| - |r|..]
    ensures forall i :: 0 <= i < |s| - |r| ==> IsTrimWhitespace(s[i])
    ensures r != [] ==> !IsTrimWhitespace(r[0])
  {
    if s != [] && IsTrimWhitespace(s[0]) then StripLeadingWhitespace(s[1..]) else s
  }

  function StripTrailingWhitespace(s: string): (r: string)
    ensures |r| <= |s| && r == s[..|r|]
    ensures forall i :: |r| <= i < |s| ==> IsTrimWhitespace(s[i])
    ensures r != [] ==> !IsTrimWhitespace(r[|r| - 1])
  {
    if s != [] && IsTrimWhitespace(s[|s| - 1]) then StripTrailingWhitespace(s[..|s| - 1]) else s
  }

  /** `trim` as its documentation describes it: whitespace, non-breaking
      spaces included, removed from both ends, and nothing else removed. */
  function TrimWhitespace(s: Option<string>): (r: Option<string>)
    ensures r.None? <==> s.None?
  {
    if s.None? then None else Some(StripTrailingWhitespace(StripLeadingWhitespace(s.value)))
  }

  /** The corrected trim leaves the substring `s[i..j]` of its input, having
      dropped only whitespace before `i` and after `j`, and the result has no
      whitespace at either end. */
  lemma TrimWhitespaceCorrect(s: string) returns (i: nat, j: nat)
    ensures i <= j <= |s| && TrimWhitespace(Some(s)) == Some(s[i..j])
    ensures forall k :: 0 <= k < i ==> IsTrimWhitespace(s[k])
    ensures forall k :: j <= k < |s| ==> IsTrimWhitespace(s[k])
    ensures i < j ==> !IsTrimWhitespace(s[i]) && !IsTrimWhitespace(s[j - 1])
  {
    var l := StripLeadingWhitespace(s);
    var r := StripTrailingWhitespace(l);
    i := |s| - |l|;
    j := i + |r|;
    assert l == s[i..];
    assert r == l[..|r|];
    assert r == s[i..j];
    forall k | j <= k < |s|
      ensures IsTrimWhitespace(s[k])
    {
      assert s[k] == l[k - i];
    }
    if i < j {
      assert r[0] == l[0] == s[i];
      assert r[|r| - 1] == s[j - 1];
    }
  }

  lemma TrimWhitespaceIdempotent(s: string)
    ensures TrimWhitespace(TrimWhitespace(Some(s))) == TrimWhitespace(Some(s))
  {
    var l := StripLeadingWhitespace(s);
    var r := StripTrailingWhitespace(l);
    if r != [] {
      assert r[0] == l[0];
    }
    assert StripLeadingWhitespace(r) == r;
  }

  /** The inputs of the counterexamples get the documented result. */
  lemma TrimWhitespaceOnCounterexamples()
    ensures TrimWhitespace(Some("a ")) == Some("a")
    ensures TrimWhitespace(Some("|a")) == Some("|a")
  {
    assert !IsTrimWhitespace('a');
    assert StripLeadingWhitespace("a ") == "a ";
    assert StripTrailingWhitespace("a ") == "a" by {
      assert "a "[..1] == "a";
      assert StripTrailingWhitespace("a") == "a";
    }
    assert !IsTrimWhitespace('|');
    assert StripLeadingWhitespace("|a") == "|a";
    assert StripTrailingWhitespace("|a") == "|a";
  }

  // ---------------------------------------------------------------------
  // createDbSelectionQuery

  /** `TextUtils.join(delimiter, values)`. */
  function Join(delimiter: string, values: seq<string>): string
  {
    if values == [] then ""
    else if |values| == 1 then values[0]
    else Join(delimiter, values[..|values| - 1]) + delimiter + values[|values| - 1]
  }

  lemma {:induction false} JoinConcat(delimiter: string, xs: seq<string>, ys: seq<string>)
    requires xs != [] && ys != []
    ensures Join(delimiter, xs + ys) == Join(delimiter, xs) + delimiter + Join(delimiter, ys)
  {
    if |ys| == 1 {
      assert (xs + ys)[..|xs + ys| - 1] == xs;
    } else {
      var ys' := ys[..|ys| - 1];
      assert (xs + ys)[..|xs + ys| - 1] == xs + ys';
      JoinConcat(delimiter, xs, ys');
    }
  }

  /** `createDbSelectionQuery(columnName, values)`: "col IN (v1, v2, ...)". */
  function CreateDbSelectionQuery(columnName: string, values: seq<string>): (r: string)
    ensures |r| >= |columnName| + 6
    ensures r[..|columnName|] == columnName && r[|columnName|..|columnName| + 5] == " IN ("
    ensures r[|r| - 1] == ')'
  {
    columnName + " IN (" + Join(", ", values) + ")"
  }

  /** No values give an empty parenthesised list. */
  lemma CreateDbSelectionQueryEmpty(columnName: string)
    ensures CreateDbSelectionQuery(columnName, []) == columnName + " IN ()"
  {
  }

  /** One value stands alone between the parentheses. */
  lemma CreateDbSelectionQuerySingle(columnName: string, v: string)
    ensures CreateDbSelectionQuery(columnName, [v]) == columnName + " IN (" + v + ")"
  {
  }

  /** A value put in front of the others is followed by ", " and the rest. */
  lemma CreateDbSelectionQueryCons(columnName: string, v: string, values: seq<string>)
    requires values != []
    ensures CreateDbSelectionQuery(columnName, [v] + values)
         == columnName + " IN (" + v + ", " + Join(", ", values) + ")"
  {
    JoinConcat(", ", [v], values);
  }

  /** Adding one more value extends the parenthesised list by ", value". */
  lemma CreateDbSelectionQueryAppend(columnName: string, values: seq<string>, v: string)
    requires values != []
    ensures CreateDbSelectionQuery(columnName, values + [v])
         == columnName + " IN (" + Join(", ", values) + ", " + v + ")"
  {
    JoinConcat(", ", values, [v]);
  }

  // ---------------------------------------------------------------------
  // isLauncherAppTarget

  /** `isLauncherAppTarget(launchIntent)`. */
  function IsLauncherAppTarget(launchIntent: Option<Intent>): (r: bool)
    // Only a present MAIN intent with a component and no data can pass.
    ensures r ==> launchIntent.Some? && launchIntent.value.action == Some(ACTION_MAIN)
                  && launchIntent.value.component.Some?
                  && (launchIntent.value.dataString.None? || launchIntent.value.dataString.value == "")
  {
    if launchIntent.Some?
       && launchIntent.value.action == Some(ACTION_MAIN)
       && launchIntent.value.component.Some?
       && launchIntent.value.categories.Some?
       && |launchIntent.value.categories.value| == 1
       && CATEGORY_LAUNCHER in launchIntent.value.categories.value
       && (launchIntent.value.dataString.None? || launchIntent.value.dataString.value == "")
    then
      var extras := launchIntent.value.extras;
      if extras.None? then true
      else |extras.value.Keys| == 1 && EXTRA_PROFILE in extras.value.Keys
    else false
  }

  lemma SingletonSet<T>(s: set<T>, x: T)
    requires |s| == 1 && x in s
    ensures s == {x}
  {
    var rest := s - {x};
    assert |rest| == 0;
    assert rest == {};
  }

  /** The test holds exactly for a MAIN intent with a component, the single
      category LAUNCHER, no data and either no extras or only the profile. */
  lemma IsLauncherAppTargetIff(i: Intent)
    ensures IsLauncherAppTarget(Some(i)) <==>
      && i.action == Some(ACTION_MAIN)
      && i.component.Some?
      && i.categories == Some({CATEGORY_LAUNCHER})
      && (i.dataString.None? || i.dataString.value == "")
      && (i.extras.None? || i.extras.value.Keys == {EXTRA_PROFILE})
  {
    if i.categories.Some? && |i.categories.value| == 1 && CATEGORY_LAUNCHER in i.categories.value {
      SingletonSet(i.categories.value, CATEGORY_LAUNCHER);
    }
    if i.extras.Some? && |i.extras.value.Keys| == 1 && EXTRA_PROFILE in i.extras.value.Keys {
      SingletonSet(i.extras.value.Keys, EXTRA_PROFILE);
    }
  }

  // ---------------------------------------------------------------------
  // getColor / getHueArray

  /** The colour arrays of the resources, by hue. */
  datatype Hue =
    | Red | Pink | Purple | DeepPurple | Indigo | Blue | LightBlue | Cyan | Teal
    | Green | LightGreen | Lime | Yellow | Amber | Orange | DeepOrange | Brown
    | Grey | BlueGrey

  const HUES: seq<Hue> := [Red, Pink, Purple, DeepPurple, Indigo, Blue, LightBlue, Cyan,
    Teal, Green, LightGreen, Lime, Yellow, Amber, Orange, DeepOrange, Brown, Grey, BlueGrey]

  /** `getHueArray(hueId)`: which colour array a hue id selects, or `null`. */
  function GetHueArray(hueId: int): (r: Option<Hue>)
    ensures r.Some? <==> 0 <= hueId <= 18
  {
    if 0 <= hueId < |HUES| then Some(HUES[hueId]) else None
  }

  lemma GetHueArrayInjective(a: int, b: int)
    requires GetHueArray(a).Some? && GetHueArray(a) == GetHueArray(b)
    ensures a == b
  {
  }

  /** `Color.BLACK`, `Color.TRANSPARENT` and `Color.WHITE` as Java ints. */
  const BLACK := -0x100_0000
  const TRANSPARENT := 0
  const WHITE := -1

  /** `getColor(context, huePrefName, defaultHue, variationPrefName,
      defaultVariation)`. `hueArrays` stands for the string arrays of the
      resources, `parseColor` for `Color.parseColor`. */
  function GetColor(prefs: SharedPreferences, huePrefName: string, defaultHue: string,
                    variationPrefName: string, defaultVariation: string,
                    hueArrays: Hue -> seq<string>, parseColor: string -> Result<int>): (r: Result<int>)
    reads prefs
    // A colour is one of the three fixed ones or what `parseColor` gives;
    // so is a failure, unless it comes from reading, parsing or indexing.
    ensures r.Ok? ==> r.value in {BLACK, TRANSPARENT, WHITE} || exists c :: parseColor(c) == r
    ensures r.Throws? ==> r.error in {ClassCast, NumberFormat, NullPointer, IndexOutOfBounds}
                          || exists c :: parseColor(c) == r
  {
    var hueText := prefs.GetString(huePrefName, defaultHue);
    if hueText.Throws? then Throws(hueText.error)
    else
      var hueId := ParseInt(Some(hueText.value));
      if hueId.Throws? then Throws(hueId.error)
      else if hueId.value < 0 then
        Ok(if hueId.value == -2 then BLACK else if hueId.value == -1 then TRANSPARENT else WHITE)
      else
        var hueArray := GetHueArray(hueId.value);
        var variationText := prefs.GetString(variationPrefName, defaultVariation);
        if variationText.Throws? then Throws(variationText.error)
        else
          var variation := ParseInt(Some(variationText.value));
          if variation.Throws? then Throws(variation.error)
          else if hueArray.None? then Throws(NullPointer)
          else
            var colours := hueArrays(hueArray.value);
            if !(0 <= variation.value < |colours|) then Throws(IndexOutOfBounds)
            else parseColor(colours[variation.value])
  }

  /** A negative hue id in the preferences selects a fixed colour: -2 black,
      -1 transparent, anything else white, whatever the variation. */
  lemma GetColorNegativeHue(prefs: SharedPreferences, huePrefName: string, defaultHue: string,
                            variationPrefName: string, defaultVariation: string,
                            hueArrays: Hue -> seq<string>, parseColor: string -> Result<int>,
                            hueId: int)
    requires INT_MIN <= hueId < 0
    requires prefs.GetString(huePrefName, defaultHue) == Ok(IntToString(hueId))
    ensures GetColor(prefs, huePrefName, defaultHue, variationPrefName, defaultVariation, hueArrays, parseColor)
         == Ok(if hueId == -2 then BLACK else if hueId == -1 then TRANSPARENT else WHITE)
  {
    ParseIntOfIntToString(hueId);
  }

  /** A hue id above 18 selects no array, so indexing it throws once the
      variation has parsed. */
  lemma GetColorUnknownHue(prefs: SharedPreferences, huePrefName: string, defaultHue: string,
                           variationPrefName: string, defaultVariation: string,
                           hueArrays: Hue -> seq<string>, parseColor: string -> Result<int>,
                           hueId: int, variation: int)
    requires 18 < hueId <= INT_MAX && INT_MIN <= variation <= INT_MAX
    requires prefs.GetString(huePrefName, defaultHue) == Ok(IntToString(hueId))
    requires prefs.GetString(variationPrefName, defaultVariation) == Ok(IntToString(variation))
    ensures GetColor(prefs, huePrefName, defaultHue, variationPrefName, defaultVariation, hueArrays, parseColor)
         == Throws(NullPointer)
  {
    ParseIntOfIntToString(hueId);
    ParseIntOfIntToString(variation);
  }

  /** The ordinary path: a hue id in 0..18 selects its palette, and the
      variation picks the colour string that `parseColor` reads; a
      variation outside the palette throws. */
  lemma GetColorFromPalette(prefs: SharedPreferences, huePrefName: string, defaultHue: string,
                            variationPrefName: string, defaultVariation: string,
                            hueArrays: Hue -> seq<string>, parseColor: string -> Result<int>,
                            hueId: int, variation: int)
    requires 0 <= hueId <= 18 && INT_MIN <= variation <= INT_MAX
    requires prefs.GetString(huePrefName, defaultHue) == Ok(IntToString(hueId))
    requires prefs.GetString(variationPrefName, defaultVariation) == Ok(IntToString(variation))
    ensures GetHueArray(hueId).Some?
    ensures var colours := hueArrays(GetHueArray(hueId).value);
            GetColor(prefs, huePrefName, defaultHue, variationPrefName, defaultVariation, hueArrays, parseColor)
            == if 0 <= variation < |colours| then parseColor(colours[variation]) else Throws(IndexOutOfBounds)
  {
    ParseIntOfIntToString(hueId);
    ParseIntOfIntToString(variation);
  }

  // ---------------------------------------------------------------------
  // setAppVisibility / isAppHidden

  const VISIBILITY_PREFIX := "visibility_"

  function VisibilityKey(key: string): string
  {
    VISIBILITY_PREFIX + key
  }

  lemma VisibilityKeyInjective(a: string, b: string)
    requires VisibilityKey(a) == VisibilityKey(b)
    ensures a == b
  {
    assert a == VisibilityKey(a)[|VISIBILITY_PREFIX|..];
    assert b == VisibilityKey(b)[|VISIBILITY_PREFIX|..];
  }

  /** `isAppHidden(context, key)`: hidden when "visibility_key" holds false;
      a key never written is visible. */
  function IsAppHidden(prefs: SharedPreferences, key: string): (r: Result<bool>)
    reads prefs
    ensures VisibilityKey(key) !in prefs.values ==> r == Ok(false)
    ensures VisibilityKey(key) in prefs.values && prefs.values[VisibilityKey(key)].BoolValue?
            ==> r == Ok(!prefs.values[VisibilityKey(key)].b)
  {
    var visible := prefs.GetBoolean(VisibilityKey(key), true);
    if visible.Throws? then Throws(visible.error) else Ok(!visible.value)
  }

  /** `setAppVisibility(context, key, visible)`. */
  method SetAppVisibility(prefs: SharedPreferences, key: string, visible: bool)
    modifies prefs
    ensures prefs.values == old(prefs.values)[VisibilityKey(key) := BoolValue(visible)]
    ensures IsAppHidden(prefs, key) == Ok(!visible)
    ensures forall other :: other != key ==> IsAppHidden(prefs, other) == old(IsAppHidden(prefs, other))
  {
    prefs.PutBoolean(VisibilityKey(key), visible);
    forall other | other != key
      ensures IsAppHidden(prefs, other) == old(IsAppHidden(prefs, other))
    {
      if VisibilityKey(other) == VisibilityKey(key) {
        VisibilityKeyInjective(other, key);
      }
    }
  }

  // ---------------------------------------------------------------------
  // badgeIconForUser / badgeWithBitmap

  /** `badgeIconForUser(icon, user, context)`: `badged` stands for the
      package manager's user badging. */
  function BadgeIconForUser<B>(icon: B, user: Option<UserHandle>, myUser: UserHandle,
                               badged: (B, UserHandle) -> B): (r: B)
    ensures user.None? || user.value == myUser ==> r == icon
    ensures user.Some? && user.value != myUser ==> r == badged(icon, user.value)
  {
    if user.Some? && myUser != user.value then badged(icon, user.value) else icon
  }

  /** One `Canvas.drawBitmap(bitmap, src, dst, paint)` call. */
  datatype DrawCall = DrawCall(src: Rect, dst: Rect)

  /** `badgeWithBitmap(srcTgt, badge, context)`: the whole badge is drawn
      into a badgeSize square in the bottom-right corner of the target. */
  function BadgeWithBitmap(targetWidth: int, targetHeight: int, badgeWidth: int, badgeHeight: int,
                           badgeSize: int): (r: DrawCall)
    ensures r.src == Rect(0, 0, badgeWidth, badgeHeight)
    ensures r.dst.Width() == badgeSize && r.dst.Height() == badgeSize
    ensures r.dst.right == targetWidth && r.dst.bottom == targetHeight
  {
    DrawCall(Rect(0, 0, badgeWidth, badgeHeight),
             Rect(targetWidth - badgeSize, targetHeight - badgeSize, targetWidth, targetHeight))
  }
}
