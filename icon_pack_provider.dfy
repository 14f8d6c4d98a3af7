/** `IconPackProvider`: the parser of an icon pack's `appfilter` XML resource
    and the static cache of parsed packs. The pull parser is modelled by the
    sequence of events `next()` produces up to the end of the document; a
    `ParseError` event stands for `next()` throwing. */
module IconPackProvider {
  import opened Java
  import opened Prefs

  /** One event of the pull parser: a start tag with its attributes, any
      other event (text, end tag, ...), or a failure of `next()`. */
  datatype XmlEvent =
    | StartTag(name: string, attributes: map<string, string>)
    | OtherEvent
    | ParseError

  /** `IconPackProvider.IconInfo`: the drawable and calendar prefix of a component. */
  datatype IconInfo = IconInfo(drawable: Option<string>, prefix: Option<string>)

  /** The local state of `parseAppFilter` while it reads the events. */
  datatype AppFilter = AppFilter(
    entries: map<string, IconInfo>,
    calendars: seq<string>,
    iconBack: Option<string>,
    iconUpon: Option<string>,
    iconMask: Option<string>,
    scale: real)

  /** The state before the first event. */
  const Initial := AppFilter(map[], [], None, None, None, 1.0)

  /** What `parseAppFilter` hands to the icon-pack constructor: the pack's
      package name and the parsed filter. */
  datatype ParsedIconPack = ParsedIconPack(packageName: string, filter: AppFilter)

  /** `parser.getAttributeValue(null, name)`. */
  function Attribute(attributes: map<string, string>, name: string): (r: Option<string>)
    ensures r.Some? <==> name in attributes
    ensures r.Some? ==> r.value == attributes[name]
  {
    if name in attributes then Some(attributes[name]) else None
  }

  /** `getImg(parser)`: the first of the attributes `img`, `img0`, `img1`,
      `img2` and `img3` that is present. */
  function GetImg(attributes: map<string, string>): (r: Option<string>)
    ensures r.None? <==> "img" !in attributes && "img0" !in attributes && "img1" !in attributes
                         && "img2" !in attributes && "img3" !in attributes
    ensures "img" in attributes ==> r == Some(attributes["img"])
    ensures "img" !in attributes && "img0" in attributes ==> r == Some(attributes["img0"])
    ensures "img" !in attributes && "img0" !in attributes && "img1" in attributes ==> r == Some(attributes["img1"])
    ensures "img" !in attributes && "img0" !in attributes && "img1" !in attributes && "img2" in attributes ==>
              r == Some(attributes["img2"])
    ensures "img" !in attributes && "img0" !in attributes && "img1" !in attributes && "img2" !in attributes ==>
              r == Attribute(attributes, "img3")
  {
    var img := Attribute(attributes, "img");
    var img := if img.None? then Attribute(attributes, "img0") else img;
    var img := if img.None? then Attribute(attributes, "img1") else img;
    var img := if img.None? then Attribute(attributes, "img2") else img;
    if img.None? then Attribute(attributes, "img3") else img
  }

  /** The entry of `comp`, a fresh `IconInfo` when there is none. */
  function Entry(entries: map<string, IconInfo>, comp: string): IconInfo
  {
    if comp in entries then entries[comp] else IconInfo(None, None)
  }

  /** `comp.split("/")[0].split("\\{")[1]`, or nothing when it throws. */
  function CalendarOf(comp: string): Option<string>
  {
    match Element(Split(comp, '/'), 0)
    case Throws(_) => None
    case Ok(s0) =>
      match Element(Split(s0, '{'), 1)
      case Throws(_) => None
      case Ok(calendar) => Some(calendar)
  }

  /** For the component strings an icon pack holds, `ComponentInfo{pkg/cls}`,
      the calendar is the package name. */
  lemma CalendarOfComponentString(pkg: string, cls: string)
    requires pkg != [] && '/' !in pkg && '{' !in pkg
    ensures CalendarOf("ComponentInfo{" + pkg + "/" + cls + "}") == Some(pkg)
  {
    var s0 := "ComponentInfo{" + pkg;
    var comp := s0 + ['/'] + (cls + "}");
    assert "ComponentInfo{" + pkg + "/" + cls + "}" == comp;
    assert '/' !in "ComponentInfo{";
    assert '/' !in s0;
    SplitHead(s0, '/', cls + "}");
    assert Element(Split(comp, '/'), 0) == Ok(s0);
    assert s0 == "ComponentInfo" + ['{'] + pkg;
    SplitPair("ComponentInfo", '{', pkg);
    assert Element(Split(s0, '{'), 1) == Ok(pkg);
  }

  /** A component with nothing between its first `{` and its first `/`
      adds no calendar. */
  lemma CalendarOfNothingAfterBrace(a: string, rest: string)
    requires '/' !in a && '{' !in a
    ensures CalendarOf(a + "{/" + rest) == None
  {
    var s0 := a + "{";
    assert a + "{/" + rest == s0 + ['/'] + rest;
    SplitHead(s0, '/', rest);
    SplitTrailing(a, '{');
  }

  /** One event of the loop of `parseAppFilter`, which has already failed
      for a `ParseError`. Only start tags are looked at; a `scale` whose
      factor is missing or not a number (`parseFloat`) throws inside the
      loop's `try` and changes nothing. */
  function Step(st: AppFilter, event: XmlEvent, parseFloat: string -> Option<real>): AppFilter
  {
    match event
    case ParseError => st
    case OtherEvent => st
    case StartTag(name, attributes) =>
      if name == "item" then
        var comp := Attribute(attributes, "component");
        var drawable := Attribute(attributes, "drawable");
        if drawable.Some? && comp.Some?
        then st.(entries := st.entries[comp.value := Entry(st.entries, comp.value).(drawable := drawable)])
        else st
      else if name == "iconback" then st.(iconBack := GetImg(attributes))
      else if name == "iconupon" then st.(iconUpon := GetImg(attributes))
      else if name == "iconmask" then st.(iconMask := GetImg(attributes))
      else if name == "scale" then
        var factor := Attribute(attributes, "factor");
        if factor.Some? && parseFloat(factor.value).Some? then st.(scale := parseFloat(factor.value).value) else st
      else if name == "calendar" then
        var comp := Attribute(attributes, "component");
        var prefix := Attribute(attributes, "prefix");
        if prefix.Some? && comp.Some?
        then
          var calendar := CalendarOf(comp.value);
          st.(entries := st.entries[comp.value := Entry(st.entries, comp.value).(prefix := prefix)],
              calendars := st.calendars + (if calendar.Some? then [calendar.value] else []))
        else st
      else st
  }

  /** The events read so far: a failure of `next()` ends the parse with an
      exception. */
  function Parse(events: seq<XmlEvent>, parseFloat: string -> Option<real>): (r: Result<AppFilter>)
    ensures r.Throws? ==> r.error == XmlPullParser
    ensures r.Throws? <==> exists i :: 0 <= i < |events| && events[i].ParseError?
  {
    if events == [] then Ok(Initial)
    else
      match Parse(events[..|events| - 1], parseFloat)
      case Throws(e) => Throws(e)
      case Ok(st) =>
        if events[|events| - 1].ParseError? then Throws(XmlPullParser)
        else Ok(Step(st, events[|events| - 1], parseFloat))
  }

  /** An `item` tag with both a component and a drawable sets the
      component's drawable and keeps its prefix; nothing else changes. */
  lemma ItemSetsDrawable(st: AppFilter, attributes: map<string, string>, parseFloat: string -> Option<real>)
    requires "component" in attributes && "drawable" in attributes
    ensures var comp := attributes["component"];
            var r := Step(st, StartTag("item", attributes), parseFloat);
            r.entries.Keys == st.entries.Keys + {comp}
            && r.entries[comp].drawable == Some(attributes["drawable"])
            && (comp in st.entries ==> r.entries[comp].prefix == st.entries[comp].prefix)
            && (comp !in st.entries ==> r.entries[comp].prefix.None?)
            && (forall c :: c in st.entries && c != comp ==> r.entries[c] == st.entries[c])
            && r.(entries := st.entries) == st
  {
  }

  /** A `calendar` tag with both a component and a prefix sets the
      component's prefix, keeps its drawable, and adds the calendar of the
      component when there is one. */
  lemma CalendarSetsPrefix(st: AppFilter, attributes: map<string, string>, parseFloat: string -> Option<real>)
    requires "component" in attributes && "prefix" in attributes
    ensures var comp := attributes["component"];
            var r := Step(st, StartTag("calendar", attributes), parseFloat);
            r.entries.Keys == st.entries.Keys + {comp}
            && r.entries[comp].prefix == Some(attributes["prefix"])
            && (comp in st.entries ==> r.entries[comp].drawable == st.entries[comp].drawable)
            && (comp !in st.entries ==> r.entries[comp].drawable.None?)
            && (forall c :: c in st.entries && c != comp ==> r.entries[c] == st.entries[c])
            && r.calendars == st.calendars + (if CalendarOf(comp).Some? then [CalendarOf(comp).value] else [])
            && r.(entries := st.entries, calendars := st.calendars) == st
  {
  }

  /** An `item` or `calendar` tag missing one of its two attributes, a tag
      of any other name, and an event that is not a start tag change
      nothing. */
  lemma IgnoredEvents(st: AppFilter, name: string, attributes: map<string, string>, parseFloat: string -> Option<real>)
    ensures name == "item" && ("component" !in attributes || "drawable" !in attributes) ==>
              Step(st, StartTag(name, attributes), parseFloat) == st
    ensures name == "calendar" && ("component" !in attributes || "prefix" !in attributes) ==>
              Step(st, StartTag(name, attributes), parseFloat) == st
    ensures name !in {"item", "iconback", "iconupon", "iconmask", "scale", "calendar"} ==>
              Step(st, StartTag(name, attributes), parseFloat) == st
    ensures Step(st, OtherEvent, parseFloat) == st
  {
  }

  /** Only a start tag named `iconback` changes the back image. */
  predicate NoIconBack(events: seq<XmlEvent>)
  {
    forall i :: 0 <= i < |events| ==> !(events[i].StartTag? && events[i].name == "iconback")
  }

  /** The last `iconback` tag decides the back image, even when it has no
      image attribute. */
  lemma {:induction false} LastIconBackWins(pre: seq<XmlEvent>, attributes: map<string, string>, post: seq<XmlEvent>,
                                            parseFloat: string -> Option<real>)
    requires NoIconBack(post)
    requires Parse(pre + [StartTag("iconback", attributes)] + post, parseFloat).Ok?
    ensures Parse(pre + [StartTag("iconback", attributes)] + post, parseFloat).value.iconBack == GetImg(attributes)
  {
    var events := pre + [StartTag("iconback", attributes)] + post;
    if post == [] {
      assert events[..|events| - 1] == pre;
    } else {
      var init := post[..|post| - 1];
      assert events[..|events| - 1] == pre + [StartTag("iconback", attributes)] + init;
      assert NoIconBack(init) by {
        forall i | 0 <= i < |init|
          ensures !(init[i].StartTag? && init[i].name == "iconback")
        {
          assert init[i] == post[i];
        }
      }
      assert !(post[|post| - 1].StartTag? && post[|post| - 1].name == "iconback");
      LastIconBackWins(pre, attributes, init, parseFloat);
    }
  }

  /** Only a start tag named `scale` changes the scale. */
  predicate NoScale(events: seq<XmlEvent>)
  {
    forall i :: 0 <= i < |events| ==> !(events[i].StartTag? && events[i].name == "scale")
  }

  /** Without a `scale` tag the scale stays 1. */
  lemma {:induction false} ScaleDefault(events: seq<XmlEvent>, parseFloat: string -> Option<real>)
    requires NoScale(events) && Parse(events, parseFloat).Ok?
    ensures Parse(events, parseFloat).value.scale == 1.0
  {
    if events != [] {
      var init := events[..|events| - 1];
      assert NoScale(init) by {
        forall i | 0 <= i < |init|
          ensures !(init[i].StartTag? && init[i].name == "scale")
        {
          assert init[i] == events[i];
        }
      }
      ScaleDefault(init, parseFloat);
    }
  }

  /** `parseAppFilter(context, packageName)`: `parser` is what
      `getAppFilter` returns, null when the package has no `appfilter`
      resource, in which case the defaults are used. */
  method ParseAppFilter(packageName: string, parser: Option<seq<XmlEvent>>, parseFloat: string -> Option<real>)
    returns (r: Result<ParsedIconPack>)
    ensures parser.None? ==> r == Ok(ParsedIconPack(packageName, Initial))
    ensures parser.Some? ==>
              match Parse(parser.value, parseFloat)
              case Throws(e) => r == Throws(e)
              case Ok(st) => r == Ok(ParsedIconPack(packageName, st))
  {
    var st := Initial;
    if parser.Some? {
      var events := parser.value;
      var i := 0;
      while i < |events|
        invariant i <= |events|
        invariant Parse(events[..i], parseFloat) == Ok(st)
      {
        assert events[..i + 1][..i] == events[..i];
        if events[i].ParseError? {
          return Throws(XmlPullParser);
        }
        st := Step(st, events[i], parseFloat);
        i := i + 1;
      }
      assert events[..|events|] == events;
    }
    r := Ok(ParsedIconPack(packageName, st));
  }

  /** The preference naming the chosen icon pack. */
  const PREF_ICON_PACK_PACKAGE := "pref_iconPackPackage"

  /** The static `iconPacks` cache: package name to parsed pack, `None` for a
      pack that failed to parse. */
  class IconPackProvider {
    var iconPacks: map<string, Option<ParsedIconPack>>

    constructor ()
      ensures iconPacks == map[]
    {
      iconPacks := map[];
    }

    /** `loadIconPack(context, packageName)`: the parse result is cached,
        `None` when parsing threw. `appFilter` is `getAppFilter`. */
    method LoadIconPack(packageName: string, appFilter: string -> Option<seq<XmlEvent>>,
                        parseFloat: string -> Option<real>)
      modifies this
      ensures packageName in iconPacks && iconPacks == old(iconPacks)[packageName := iconPacks[packageName]]
      ensures appFilter(packageName).None? ==> iconPacks[packageName] == Some(ParsedIconPack(packageName, Initial))
      ensures appFilter(packageName).Some? ==>
                match Parse(appFilter(packageName).value, parseFloat)
                case Throws(_) => iconPacks[packageName] == None
                case Ok(st) => iconPacks[packageName] == Some(ParsedIconPack(packageName, st))
    {
      if packageName == "" {
        iconPacks := iconPacks[packageName := None];
      }
      var r := ParseAppFilter(packageName, appFilter(packageName), parseFloat);
      if r.Ok? {
        iconPacks := iconPacks[packageName := Some(r.value)];
      } else {
        iconPacks := iconPacks[packageName := None];
      }
    }

    /** `loadAndGetIconPack(context)`: null for an empty preference, without
        loading; otherwise the cached pack, which is loaded first only when
        the cache has no entry for the package. */
    method LoadAndGetIconPack(prefs: SharedPreferences, appFilter: string -> Option<seq<XmlEvent>>,
                              parseFloat: string -> Option<real>)
      returns (r: Result<Option<ParsedIconPack>>)
      modifies this
      ensures prefs.GetString(PREF_ICON_PACK_PACKAGE, "").Throws? ==>
                r == Throws(ClassCast) && iconPacks == old(iconPacks)
      ensures prefs.GetString(PREF_ICON_PACK_PACKAGE, "") == Ok("") ==> r == Ok(None) && iconPacks == old(iconPacks)
      ensures var name := prefs.GetString(PREF_ICON_PACK_PACKAGE, "");
              name.Ok? && name.value != "" ==>
                name.value in iconPacks && r == Ok(iconPacks[name.value])
                && (name.value in old(iconPacks) ==> iconPacks == old(iconPacks))
                && (name.value !in old(iconPacks) ==> iconPacks.Keys == old(iconPacks).Keys + {name.value}
                                                      && forall n :: n in old(iconPacks) ==> iconPacks[n] == old(iconPacks)[n])
                // An uncached pack is loaded: parsed, or null when parsing throws.
                && (name.value !in old(iconPacks) && appFilter(name.value).None? ==>
                      iconPacks[name.value] == Some(ParsedIconPack(name.value, Initial)))
                && (name.value !in old(iconPacks) && appFilter(name.value).Some? ==>
                      match Parse(appFilter(name.value).value, parseFloat)
                      case Throws(_) => iconPacks[name.value] == None
                      case Ok(st) => iconPacks[name.value] == Some(ParsedIconPack(name.value, st)))
    {
      var name := prefs.GetString(PREF_ICON_PACK_PACKAGE, "");
      if name.Throws? {
        return Throws(ClassCast);
      }
      var packageName := name.value;
      if packageName == "" {
        return Ok(None);
      }
      if packageName !in iconPacks {
        LoadIconPack(packageName, appFilter, parseFloat);
      }
      r := Ok(iconPacks[packageName]);
    }
  }
}
