/** `ExtractionUtils`: when to re-extract colours from the wallpaper, and the
    population vote that decides whether a colour is legible on it. */
module ExtractionUtils {
  import opened Java
  import opened Prefs

  const EXTRACTED_COLORS_PREFERENCE_KEY := "pref_extractedColors"
  const WALLPAPER_ID_PREFERENCE_KEY := "pref_wallpaperId"

  /** `Color.WHITE` and `Color.BLACK` as Java `int`s. */
  const WHITE := -1
  const BLACK := -0x100_0000

  /** A palette swatch: its colour and how many pixels it stands for. */
  datatype Swatch = Swatch(rgb: int, population: int)

  // ---------------------------------------------------------------------
  // isLegibleOnWallpaper / isSuperLight / isSuperDark

  /** Total population of the swatches on which `color` is legible.
      `isLegible(foreground, background)` stands for the contrast test. */
  function LegiblePopulation(color: int, swatches: seq<Swatch>, isLegible: (int, int) -> bool): int
  {
    if swatches == [] then 0
    else
      var last := swatches[|swatches| - 1];
      LegiblePopulation(color, swatches[..|swatches| - 1], isLegible)
      + (if isLegible(color, last.rgb) then last.population else 0)
  }

  /** Total population of the swatches on which `color` is not legible. */
  function IllegiblePopulation(color: int, swatches: seq<Swatch>, isLegible: (int, int) -> bool): int
  {
    if swatches == [] then 0
    else
      var last := swatches[|swatches| - 1];
      IllegiblePopulation(color, swatches[..|swatches| - 1], isLegible)
      + (if isLegible(color, last.rgb) then 0 else last.population)
  }

  /** Total population of all swatches. */
  function Population(swatches: seq<Swatch>): int
  {
    if swatches == [] then 0 else Population(swatches[..|swatches| - 1]) + swatches[|swatches| - 1].population
  }

  /** Every swatch is counted on exactly one side of the vote. */
  lemma {:induction false} PopulationSplits(color: int, swatches: seq<Swatch>, isLegible: (int, int) -> bool)
    ensures LegiblePopulation(color, swatches, isLegible) + IllegiblePopulation(color, swatches, isLegible)
            == Population(swatches)
  {
    if swatches != [] {
      PopulationSplits(color, swatches[..|swatches| - 1], isLegible);
    }
  }

  /** The vote is a strict majority of the population: a colour is legible
      when more than half of the pixels (by swatch) let it be read; a tie
      is not legible. */
  lemma LegibleIsStrictMajority(color: int, swatches: seq<Swatch>, isLegible: (int, int) -> bool)
    ensures LegiblePopulation(color, swatches, isLegible) > IllegiblePopulation(color, swatches, isLegible)
            <==> 2 * LegiblePopulation(color, swatches, isLegible) > Population(swatches)
  {
    PopulationSplits(color, swatches, isLegible);
  }

  /** `isLegibleOnWallpaper(color, swatches)`: the two running sums, then
      the comparison. */
  method IsLegibleOnWallpaper(color: int, swatches: seq<Swatch>, isLegible: (int, int) -> bool) returns (r: bool)
    ensures r <==> LegiblePopulation(color, swatches, isLegible) > IllegiblePopulation(color, swatches, isLegible)
  {
    var legiblePopulation := 0;
    var illegiblePopulation := 0;
    for i := 0 to |swatches|
      invariant legiblePopulation == LegiblePopulation(color, swatches[..i], isLegible)
      invariant illegiblePopulation == IllegiblePopulation(color, swatches[..i], isLegible)
    {
      assert swatches[..i + 1][..i] == swatches[..i];
      if isLegible(color, swatches[i].rgb) {
        legiblePopulation := legiblePopulation + swatches[i].population;
      } else {
        illegiblePopulation := illegiblePopulation + swatches[i].population;
      }
    }
    assert swatches[..|swatches|] == swatches;
    r := legiblePopulation > illegiblePopulation;
  }

  /** `isSuperLight(p)`: white text is not legible on the wallpaper. */
  method IsSuperLight(swatches: seq<Swatch>, isLegible: (int, int) -> bool) returns (r: bool)
    ensures r <==> 2 * LegiblePopulation(WHITE, swatches, isLegible) <= Population(swatches)
  {
    var legible := IsLegibleOnWallpaper(WHITE, swatches, isLegible);
    LegibleIsStrictMajority(WHITE, swatches, isLegible);
    r := !legible;
  }

  /** `isSuperDark(p)`: black text is not legible on the wallpaper. */
  method IsSuperDark(swatches: seq<Swatch>, isLegible: (int, int) -> bool) returns (r: bool)
    ensures r <==> 2 * LegiblePopulation(BLACK, swatches, isLegible) <= Population(swatches)
  {
    var legible := IsLegibleOnWallpaper(BLACK, swatches, isLegible);
    LegibleIsStrictMajority(BLACK, swatches, isLegible);
    r := !legible;
  }

  // ---------------------------------------------------------------------
  // getWallpaperId / hasWallpaperIdChanged

  /** `getWallpaperId(wm)`: the system wallpaper's id from Android N on
      (`systemWallpaperId`), -1 before. */
  function GetWallpaperId(nycOrAbove: bool, systemWallpaperId: int): (r: int)
    ensures !nycOrAbove ==> r == -1
    ensures nycOrAbove ==> r == systemWallpaperId
  {
    if nycOrAbove then systemWallpaperId else -1
  }

  /** `hasWallpaperIdChanged(context)`: never before Android N; otherwise
      whether the id differs from the saved one (-1 when none is saved). */
  function HasWallpaperIdChanged(nycOrAbove: bool, values: map<string, PrefValue>, systemWallpaperId: int): (r: Result<bool>)
    ensures !nycOrAbove ==> r == Ok(false)
    ensures nycOrAbove && WALLPAPER_ID_PREFERENCE_KEY !in values ==> r == Ok(systemWallpaperId != -1)
    ensures nycOrAbove && WALLPAPER_ID_PREFERENCE_KEY in values && values[WALLPAPER_ID_PREFERENCE_KEY].IntValue?
            ==> r == Ok(systemWallpaperId != values[WALLPAPER_ID_PREFERENCE_KEY].i)
  {
    if !nycOrAbove then Ok(false)
    else
      var saved := IntIn(values, WALLPAPER_ID_PREFERENCE_KEY, -1);
      if saved.Throws? then Throws(saved.error)
      else Ok(GetWallpaperId(nycOrAbove, systemWallpaperId) != saved.value)
  }

  // ---------------------------------------------------------------------
  // hasExtractionPreferencesChanged

  const HOTSEAT_COLORING_KEY := "pref_hotseatShouldUseExtractedColors"
  const LIGHT_STATUS_BAR_KEY := "pref_lightStatusBar"

  function CacheKey(key: string): string
  {
    key + "_cache"
  }

  /** The two watched preferences and their caches are four distinct keys. */
  lemma CacheKeysDistinct()
    ensures CacheKey(HOTSEAT_COLORING_KEY) != CacheKey(LIGHT_STATUS_BAR_KEY)
    ensures CacheKey(HOTSEAT_COLORING_KEY) != HOTSEAT_COLORING_KEY && CacheKey(HOTSEAT_COLORING_KEY) != LIGHT_STATUS_BAR_KEY
    ensures CacheKey(LIGHT_STATUS_BAR_KEY) != HOTSEAT_COLORING_KEY && CacheKey(LIGHT_STATUS_BAR_KEY) != LIGHT_STATUS_BAR_KEY
  {
    assert |CacheKey(HOTSEAT_COLORING_KEY)| != |CacheKey(LIGHT_STATUS_BAR_KEY)|;
  }

  /** What one check did: whether the extraction preferences were found
      changed (or the exception a read threw) and the preferences after it. */
  datatype CheckOutcome = CheckOutcome(changed: Result<bool>, values: map<string, PrefValue>)

  /** One preference's cache: it is stale when the cached flag (defaulting
      to the negation of the value, so a missing cache is always stale)
      differs from the value, and then it is rewritten. */
  function SyncCache(values: map<string, PrefValue>, key: string, value: bool): (o: CheckOutcome)
    ensures o.changed.Ok? && o.changed.value ==> o.values == values[CacheKey(key) := BoolValue(value)]
    ensures o.changed.Ok? && o.changed.value ==> BooleanIn(o.values, CacheKey(key), !value) == Ok(value)
    ensures !(o.changed.Ok? && o.changed.value) ==> o.values == values
    ensures CacheKey(key) !in values ==> o.changed == Ok(true)
  {
    var cached := BooleanIn(values, CacheKey(key), !value);
    if cached.Throws? then CheckOutcome(Throws(cached.error), values)
    else if cached.value != value then CheckOutcome(Ok(true), values[CacheKey(key) := BoolValue(value)])
    else CheckOutcome(Ok(false), values)
  }

  /** `hasExtractionPreferencesChanged(context)` on a snapshot: reads both
      preferences (default true), then syncs the hotseat cache, then the
      status-bar cache; a throw stops the run with the writes made so far. */
  function ExtractionCheck(values: map<string, PrefValue>): CheckOutcome
  {
    var hotseat := BooleanIn(values, HOTSEAT_COLORING_KEY, true);
    var light := BooleanIn(values, LIGHT_STATUS_BAR_KEY, true);
    if hotseat.Throws? then CheckOutcome(Throws(hotseat.error), values)
    else if light.Throws? then CheckOutcome(Throws(light.error), values)
    else
      var first := SyncCache(values, HOTSEAT_COLORING_KEY, hotseat.value);
      if first.changed.Throws? then first
      else
        var second := SyncCache(first.values, LIGHT_STATUS_BAR_KEY, light.value);
        if second.changed.Throws? then second
        else CheckOutcome(Ok(first.changed.value || second.changed.value), second.values)
  }

  /** With no caches stored yet, the check reports a change and stores both
      preferences' values in their caches. */
  lemma NoCachesMeansChanged(values: map<string, PrefValue>)
    requires CacheKey(HOTSEAT_COLORING_KEY) !in values && CacheKey(LIGHT_STATUS_BAR_KEY) !in values
    requires BooleanIn(values, HOTSEAT_COLORING_KEY, true).Ok? && BooleanIn(values, LIGHT_STATUS_BAR_KEY, true).Ok?
    ensures ExtractionCheck(values).changed == Ok(true)
    ensures ExtractionCheck(values).values
            == values[CacheKey(HOTSEAT_COLORING_KEY) := BoolValue(BooleanIn(values, HOTSEAT_COLORING_KEY, true).value)]
                     [CacheKey(LIGHT_STATUS_BAR_KEY) := BoolValue(BooleanIn(values, LIGHT_STATUS_BAR_KEY, true).value)]
  {
    CacheKeysDistinct();
  }

  /** Right after a check that did not throw, a second check finds nothing
      changed and writes nothing. */
  lemma CheckIdempotent(values: map<string, PrefValue>)
    requires ExtractionCheck(values).changed.Ok?
    ensures ExtractionCheck(ExtractionCheck(values).values) == CheckOutcome(Ok(false), ExtractionCheck(values).values)
  {
    CacheKeysDistinct();
    var hotseat := BooleanIn(values, HOTSEAT_COLORING_KEY, true).value;
    var light := BooleanIn(values, LIGHT_STATUS_BAR_KEY, true).value;
    var first := SyncCache(values, HOTSEAT_COLORING_KEY, hotseat);
    var second := SyncCache(first.values, LIGHT_STATUS_BAR_KEY, light);
    SyncCacheIdempotent(first.values, LIGHT_STATUS_BAR_KEY, light);
    assert BooleanIn(second.values, CacheKey(HOTSEAT_COLORING_KEY), !hotseat) == Ok(hotseat);
  }

  /** Syncing a cache a second time finds it fresh. */
  lemma SyncCacheIdempotent(values: map<string, PrefValue>, key: string, value: bool)
    requires SyncCache(values, key, value).changed.Ok?
    ensures var o := SyncCache(values, key, value);
            SyncCache(o.values, key, value) == CheckOutcome(Ok(false), o.values)
  {
  }

  /** The two caches are compared independently: the check reports a change
      exactly when either cache, as stored before the check, disagrees with
      its preference. */
  lemma ChangedIffEitherStale(values: map<string, PrefValue>)
    requires ExtractionCheck(values).changed.Ok?
    ensures var hotseat := BooleanIn(values, HOTSEAT_COLORING_KEY, true).value;
            var light := BooleanIn(values, LIGHT_STATUS_BAR_KEY, true).value;
            ExtractionCheck(values).changed.value
            <==> BooleanIn(values, CacheKey(HOTSEAT_COLORING_KEY), !hotseat) != Ok(hotseat)
                 || BooleanIn(values, CacheKey(LIGHT_STATUS_BAR_KEY), !light) != Ok(light)
  {
    CacheKeysDistinct();
  }

  /** `hasExtractionPreferencesChanged(context)`: reads, compares and writes
      through the live preferences. */
  method HasExtractionPreferencesChanged(prefs: SharedPreferences) returns (r: Result<bool>)
    modifies prefs
    ensures r == ExtractionCheck(old(prefs.values)).changed
    ensures prefs.values == ExtractionCheck(old(prefs.values)).values
  {
    CacheKeysDistinct();
    var result := false;
    var hotseatColoringValue := prefs.GetBoolean(HOTSEAT_COLORING_KEY, true);
    if hotseatColoringValue.Throws? {
      return Throws(hotseatColoringValue.error);
    }
    var lightStatusBarValue := prefs.GetBoolean(LIGHT_STATUS_BAR_KEY, true);
    if lightStatusBarValue.Throws? {
      return Throws(lightStatusBarValue.error);
    }
    var hotseatCache := prefs.GetBoolean(CacheKey(HOTSEAT_COLORING_KEY), !hotseatColoringValue.value);
    if hotseatCache.Throws? {
      return Throws(hotseatCache.error);
    }
    if hotseatCache.value != hotseatColoringValue.value {
      result := true;
      prefs.PutBoolean(CacheKey(HOTSEAT_COLORING_KEY), hotseatColoringValue.value);
    }
    var lightCache := prefs.GetBoolean(CacheKey(LIGHT_STATUS_BAR_KEY), !lightStatusBarValue.value);
    if lightCache.Throws? {
      return Throws(lightCache.error);
    }
    if lightCache.value != lightStatusBarValue.value {
      result := true;
      prefs.PutBoolean(CacheKey(LIGHT_STATUS_BAR_KEY), lightStatusBarValue.value);
    }
    return Ok(result);
  }

  /** The test of `startColorExtractionServiceIfNecessary`: the `||`
      short-circuits, so when the wallpaper id changed the extraction
      preference caches are neither read nor refreshed. */
  method ShouldStartColorExtraction(nycOrAbove: bool, prefs: SharedPreferences, systemWallpaperId: int)
    returns (r: Result<bool>)
    modifies prefs
    ensures var idChanged := HasWallpaperIdChanged(nycOrAbove, old(prefs.values), systemWallpaperId);
            if idChanged.Throws? || idChanged.value
            then r == idChanged && prefs.values == old(prefs.values)
            else r == ExtractionCheck(old(prefs.values)).changed && prefs.values == ExtractionCheck(old(prefs.values)).values
  {
    var idChanged := HasWallpaperIdChanged(nycOrAbove, prefs.values, systemWallpaperId);
    if idChanged.Throws? || idChanged.value {
      return idChanged;
    }
    r := HasExtractionPreferencesChanged(prefs);
  }
}
