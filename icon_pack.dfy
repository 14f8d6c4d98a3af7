/** `IconPack`: a loaded icon pack and its rule for picking an activity's
    icon. The fields are final, so the pack is a value. */
module IconPack {
  import opened Java
  import opened Platform

  /** The drawables `getIcon` can return: a bitmap decoded from the pack's
      drawable resource of that name, or a `CustomIconDrawable` built from
      the pack's back, upon and mask images for the component. */
  datatype Drawable = FastBitmap(name: string) | CustomIcon(component: ComponentName)

  /** `new IconPack(icons, context, packageName, iconBack, iconUpon, iconMask, scale)`:
      `icons` maps `ComponentName.toString()` strings to drawable names. */
  datatype IconPack = IconPack(
    icons: map<string, string>,
    packageName: string,
    iconBack: Option<string>,
    iconUpon: Option<string>,
    iconMask: Option<string>,
    scale: real)
  {
    /** The pack has at least one of the images a masked icon is built from. */
    predicate HasMaskImages()
    {
      iconBack.Some? || iconUpon.Some? || iconMask.Some?
    }

    /** `getDrawable(name)`: the decoded resource when the pack has a drawable
        of that name (`resourceExists`, which stands for the resource lookup
        and decoding not throwing), null otherwise. */
    function GetDrawable(name: string, resourceExists: string -> bool): (r: Option<Drawable>)
      ensures r.Some? <==> resourceExists(name)
      ensures r.Some? ==> r.value == FastBitmap(name)
    {
      if resourceExists(name) then Some(FastBitmap(name)) else None
    }

    /** `getIcon(info)`: the drawable explicitly mapped to the component, else
        a masked icon when the pack has mask images, else null.
        `maskedThrows` says whether building the `CustomIconDrawable` throws,
        which `getMaskedDrawable` turns into null. */
    function GetIcon(component: ComponentName, resourceExists: string -> bool, maskedThrows: bool): (r: Option<Drawable>)
      ensures var key := ComponentToString(component);
              (r.Some? && r.value.FastBitmap? <==> key in icons && resourceExists(icons[key]))
              && (r.Some? && r.value.FastBitmap? ==> r.value.name == icons[key])
              && (r.Some? && r.value.CustomIcon? <==> key !in icons && HasMaskImages() && !maskedThrows)
              && (r.Some? && r.value.CustomIcon? ==> r.value.component == component)
              && (key !in icons && !HasMaskImages() ==> r.None?)
    {
      var key := ComponentToString(component);
      if key in icons then GetDrawable(icons[key], resourceExists)
      else if HasMaskImages() then (if maskedThrows then None else Some(CustomIcon(component)))
      else None
    }
  }

  /** A mapping wins over the mask images: a component with a mapping never
      gets a masked icon, whatever the images. */
  lemma MappingWinsOverMask(pack: IconPack, component: ComponentName, resourceExists: string -> bool, maskedThrows: bool)
    requires ComponentToString(component) in pack.icons
    ensures pack.GetIcon(component, resourceExists, maskedThrows)
            == pack.(iconBack := None, iconUpon := None, iconMask := None).GetIcon(component, resourceExists, maskedThrows)
  {
  }
}
