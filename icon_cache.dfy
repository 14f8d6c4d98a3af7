/** The launcher's icon cache, which is not itself part of this model, seen
    from its callers: a fixed lookup from a component and user to the title
    and icon it would load, and a log of the entries evicted from it. */
module IconCache {
  import opened Platform

  /** What a cache lookup yields: the label and an opaque icon bitmap id. */
  datatype CacheEntry = CacheEntry(title: string, icon: nat)

  class IconCache {
    const lookup: ComponentKey -> CacheEntry
    var evicted: seq<ComponentKey>

    constructor (lookup: ComponentKey -> CacheEntry)
      ensures this.lookup == lookup && evicted == []
    {
      this.lookup := lookup;
      evicted := [];
    }

    /** `remove(componentName, user)`. */
    method Remove(componentName: ComponentName, user: UserHandle)
      modifies this
      ensures evicted == old(evicted) + [ComponentKey(componentName, user)]
    {
      evicted := evicted + [ComponentKey(componentName, user)];
    }
  }
}
