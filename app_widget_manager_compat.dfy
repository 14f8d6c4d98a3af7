/** `AppWidgetManagerCompatVL`: the installed widget providers of every
    user profile, and the placement of the work-profile badge on a widget
    preview. The platform's widget manager is the oracle `providersFor`,
    the installed providers of one profile in its own order. */
module AppWidgetManagerCompat {
  import opened Java
  import opened Platform

  // ---------------------------------------------------------------------
  // getBadgeBitmap

  /** `Rect.offset(dx, dy)`. */
  function Offset(r: Rect, dx: int, dy: int): Rect
  {
    Rect(r.left + dx, r.top + dy, r.right + dx, r.bottom + dy)
  }

  /** The badge's rectangle on an `imageWidth` by `imageHeight` preview
      drawn into a bitmap `bitmapWidth` wide: a square of the smallest of
      the profile badge size, the width and the height below the minimum
      top, flush with the bottom (and so not above `badgeMinTop`), on the left in
      right-to-left layouts and on the right otherwise. */
  function BadgeLocation(imageWidth: int, imageHeight: int, bitmapWidth: int,
                         badgeMinTop: int, profileBadgeSize: int, rtl: bool): (r: Rect)
    ensures r.Width() == r.Height()
    ensures r.Width() <= profileBadgeSize && r.Width() <= imageWidth && r.Width() <= imageHeight - badgeMinTop
    ensures r.Width() == profileBadgeSize || r.Width() == imageWidth || r.Width() == imageHeight - badgeMinTop
    ensures r.bottom == imageHeight && r.top == imageHeight - r.Width() && r.top >= badgeMinTop
    ensures rtl ==> r.left == 0
    ensures !rtl ==> r.right == bitmapWidth
  {
    var badgeSize := Min(profileBadgeSize, Min(imageWidth, imageHeight - badgeMinTop));
    var badgeLocation := Rect(0, 0, badgeSize, badgeSize);
    var top := Max(imageHeight - badgeSize, badgeMinTop);
    if rtl then Offset(badgeLocation, 0, top)
    else Offset(badgeLocation, bitmapWidth - badgeSize, top)
  }

  /** What `getBadgeBitmap` does with the preview: returns it untouched for
      the own user's providers, otherwise badges it at a location. */
  datatype BadgeOutcome = Unchanged | BadgedAt(location: Rect)

  /** `getBadgeBitmap(info, bitmap, imageWidth, imageHeight)`, up to the
      drawing the package manager does at the chosen location. */
  function GetBadgeBitmap(profile: UserHandle, myUser: UserHandle, imageWidth: int, imageHeight: int, bitmapWidth: int,
                          badgeMinTop: int, profileBadgeSize: int, rtl: bool): (r: BadgeOutcome)
    ensures r.Unchanged? <==> profile == myUser
    ensures r.BadgedAt? ==> r.location == BadgeLocation(imageWidth, imageHeight, bitmapWidth, badgeMinTop, profileBadgeSize, rtl)
  {
    if profile == myUser then Unchanged
    else BadgedAt(BadgeLocation(imageWidth, imageHeight, bitmapWidth, badgeMinTop, profileBadgeSize, rtl))
  }

  // ---------------------------------------------------------------------
  // getAllProviders

  /** The providers of `profiles`, profile by profile. */
  function AllProviders(profiles: seq<UserHandle>, providersFor: UserHandle -> seq<ProviderInfo>): seq<ProviderInfo>
  {
    if profiles == [] then []
    else AllProviders(profiles[..|profiles| - 1], providersFor) + providersFor(profiles[|profiles| - 1])
  }

  /** A provider is listed exactly when some profile has it installed. */
  lemma {:induction false} AllProvidersMember(profiles: seq<UserHandle>, providersFor: UserHandle -> seq<ProviderInfo>,
                                             info: ProviderInfo)
    ensures info in AllProviders(profiles, providersFor) <==> exists u :: u in profiles && info in providersFor(u)
  {
    if profiles != [] {
      var init := profiles[..|profiles| - 1];
      var last := profiles[|profiles| - 1];
      AllProvidersMember(init, providersFor, info);
      assert forall u :: u in profiles <==> u in init || u == last;
    }
  }

  /** `getAllProviders()`. */
  method GetAllProviders(profiles: seq<UserHandle>, providersFor: UserHandle -> seq<ProviderInfo>)
    returns (providers: seq<ProviderInfo>)
    ensures providers == AllProviders(profiles, providersFor)
  {
    providers := [];
    for i := 0 to |profiles|
      invariant providers == AllProviders(profiles[..i], providersFor)
    {
      assert profiles[..i + 1][..i] == profiles[..i];
      providers := providers + providersFor(profiles[i]);
    }
    assert profiles[..|profiles|] == profiles;
  }

  // ---------------------------------------------------------------------
  // getAllProvidersMap

  /** `base` with each of `infos` put under its provider and `user`, later
      ones replacing earlier ones. */
  function PutAll(base: map<ComponentKey, ProviderInfo>, user: UserHandle, infos: seq<ProviderInfo>): map<ComponentKey, ProviderInfo>
  {
    if infos == [] then base
    else
      var last := infos[|infos| - 1];
      PutAll(base, user, infos[..|infos| - 1])[ComponentKey(last.provider, user) := last]
  }

  /** The map `getAllProvidersMap` builds from `profiles`. */
  function ProvidersMap(profiles: seq<UserHandle>, providersFor: UserHandle -> seq<ProviderInfo>): map<ComponentKey, ProviderInfo>
  {
    if profiles == [] then map[]
    else
      var last := profiles[|profiles| - 1];
      PutAll(ProvidersMap(profiles[..|profiles| - 1], providersFor), last, providersFor(last))
  }

  /** `PutAll` adds exactly one key per provider, each holding a provider of
      that component. */
  lemma {:induction false} PutAllKeys(base: map<ComponentKey, ProviderInfo>, user: UserHandle, infos: seq<ProviderInfo>)
    ensures forall k :: k in PutAll(base, user, infos)
              <==> k in base || exists info :: info in infos && k == ComponentKey(info.provider, user)
    ensures forall k :: k in PutAll(base, user, infos) && (k !in base || PutAll(base, user, infos)[k] != base[k])
              ==> k.user == user && PutAll(base, user, infos)[k] in infos && PutAll(base, user, infos)[k].provider == k.componentName
  {
    if infos != [] {
      var init := infos[..|infos| - 1];
      PutAllKeys(base, user, init);
      assert forall info :: info in infos <==> info in init || info == infos[|infos| - 1];
    }
  }

  /** The map is keyed by (provider, profile) and holds, for every such key,
      a provider of that component installed for that profile. */
  lemma {:induction false} ProvidersMapKeys(profiles: seq<UserHandle>, providersFor: UserHandle -> seq<ProviderInfo>)
    ensures forall k :: k in ProvidersMap(profiles, providersFor)
              <==> exists u, info :: u in profiles && info in providersFor(u) && k == ComponentKey(info.provider, u)
    ensures forall k :: k in ProvidersMap(profiles, providersFor)
              ==> ProvidersMap(profiles, providersFor)[k] in providersFor(k.user)
                  && ProvidersMap(profiles, providersFor)[k].provider == k.componentName
  {
    if profiles != [] {
      var init := profiles[..|profiles| - 1];
      var last := profiles[|profiles| - 1];
      ProvidersMapKeys(init, providersFor);
      PutAllKeys(ProvidersMap(init, providersFor), last, providersFor(last));
      assert forall u :: u in profiles <==> u in init || u == last;
    }
  }

  /** One profile's providers put into the map, as the inner loop does. */
  method PutProviders(result: map<ComponentKey, ProviderInfo>, user: UserHandle, infos: seq<ProviderInfo>)
    returns (r: map<ComponentKey, ProviderInfo>)
    ensures r == PutAll(result, user, infos)
  {
    r := result;
    for j := 0 to |infos|
      invariant r == PutAll(result, user, infos[..j])
    {
      assert infos[..j + 1][..j] == infos[..j];
      r := r[ComponentKey(infos[j].provider, user) := infos[j]];
    }
    assert infos[..|infos|] == infos;
  }

  /** `getAllProvidersMap()`. */
  method GetAllProvidersMap(profiles: seq<UserHandle>, providersFor: UserHandle -> seq<ProviderInfo>)
    returns (result: map<ComponentKey, ProviderInfo>)
    ensures result == ProvidersMap(profiles, providersFor)
  {
    result := map[];
    for i := 0 to |profiles|
      invariant result == ProvidersMap(profiles[..i], providersFor)
    {
      assert profiles[..i + 1][..i] == profiles[..i];
      result := PutProviders(result, profiles[i], providersFor(profiles[i]));
    }
    assert profiles[..|profiles|] == profiles;
  }

  // ---------------------------------------------------------------------
  // findProvider

  /** `findProvider(provider, user)`: the first of the profile's providers
      for that component, or null. */
  method FindProvider(provider: ComponentName, user: UserHandle, providersFor: UserHandle -> seq<ProviderInfo>)
    returns (r: Option<ProviderInfo>)
    ensures r.None? <==> forall info :: info in providersFor(user) ==> info.provider != provider
    ensures r.Some? ==> r.value.provider == provider
    ensures r.Some? ==> exists i :: (0 <= i < |providersFor(user)| && providersFor(user)[i] == r.value
                                     && forall j :: 0 <= j < i ==> providersFor(user)[j].provider != provider)
  {
    var infos := providersFor(user);
    for i := 0 to |infos|
      invariant forall j :: 0 <= j < i ==> infos[j].provider != provider
    {
      if infos[i].provider == provider {
        return Some(infos[i]);
      }
    }
    return None;
  }
}
