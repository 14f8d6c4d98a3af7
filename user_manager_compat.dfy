/** `UserManagerCompatVL`: the user profiles of the device, with an optional
    cache of the serial-number/user maps. The system's `UserManager` is a
    set of oracles passed to the calls that consult it. */
module UserManagerCompat {
  import opened Java
  import opened Platform
  import opened Prefs

  const USER_CREATION_TIME_KEY := "user_creation_time_"

  /** `mUsers` after caching `profiles`: each profile under its serial, a
      later profile with the same serial replacing an earlier one. */
  function UsersBySerial(profiles: seq<UserHandle>, serialOf: UserHandle -> int): (r: map<int, UserHandle>)
    // The cached serials are exactly the profiles' serials.
    ensures r.Keys == set u | u in profiles :: serialOf(u)
  {
    if profiles == [] then map[]
    else
      var last := profiles[|profiles| - 1];
      assert profiles == profiles[..|profiles| - 1] + [last];
      UsersBySerial(profiles[..|profiles| - 1], serialOf)[serialOf(last) := last]
  }

  /** `mUserToSerialMap` after caching `profiles`. */
  function SerialsByUser(profiles: seq<UserHandle>, serialOf: UserHandle -> int): (m: map<UserHandle, int>)
    ensures m.Keys == set u | u in profiles
  {
    map u | u in profiles :: serialOf(u)
  }

  /** Every serial of the cache names a profile whose own serial it is. */
  lemma {:induction false} UsersBySerialSound(profiles: seq<UserHandle>, serialOf: UserHandle -> int)
    ensures forall s :: s in UsersBySerial(profiles, serialOf)
              ==> UsersBySerial(profiles, serialOf)[s] in profiles
                  && serialOf(UsersBySerial(profiles, serialOf)[s]) == s
    ensures forall u :: u in profiles ==> serialOf(u) in UsersBySerial(profiles, serialOf)
  {
    if profiles != [] {
      var init := profiles[..|profiles| - 1];
      UsersBySerialSound(init, serialOf);
      assert forall u :: u in init ==> u in profiles;
      assert forall u :: u in profiles ==> u in init || u == profiles[|profiles| - 1];
    }
  }

  /** With distinct serials, the cached maps are inverse to each other on
      the profiles: a profile's serial leads back to the profile. */
  lemma RoundTrip(profiles: seq<UserHandle>, serialOf: UserHandle -> int, u: UserHandle)
    requires forall a, b :: a in profiles && b in profiles && serialOf(a) == serialOf(b) ==> a == b
    requires u in profiles
    ensures serialOf(u) in UsersBySerial(profiles, serialOf)
    ensures UsersBySerial(profiles, serialOf)[SerialsByUser(profiles, serialOf)[u]] == u
  {
    UsersBySerialSound(profiles, serialOf);
  }

  /** The cache's shape: both maps present or both absent, and each cached
      serial names a user cached under that serial. */
  ghost predicate CacheConsistent(users: Option<map<int, UserHandle>>, userToSerial: Option<map<UserHandle, int>>)
  {
    users.Some? == userToSerial.Some?
    && (users.Some? ==>
          forall s :: s in users.value ==> users.value[s] in userToSerial.value && userToSerial.value[users.value[s]] == s)
  }

  /** `isQuietModeEnabled(user)`. */
  function IsQuietModeEnabled(user: UserHandle): (r: bool)
    ensures !r
  {
    false
  }

  /** `isUserUnlocked(user)`. */
  function IsUserUnlocked(user: UserHandle): (r: bool)
    ensures r
  {
    true
  }

  /** `isDemoUser()`. */
  function IsDemoUser(): (r: bool)
    ensures !r
  {
    false
  }

  /** `getBadgedLabelForUser(label, user)`: `badged` stands for the package
      manager's badging. */
  function GetBadgedLabelForUser(text: string, user: Option<UserHandle>, badged: (string, UserHandle) -> string): (r: string)
    ensures user.None? ==> r == text
    ensures user.Some? ==> r == badged(text, user.value)
  {
    if user.None? then text else badged(text, user.value)
  }

  class UserManagerCompatVL {
    /** `mUsers`: serial to user, null until the cache is enabled. */
    var users: Option<map<int, UserHandle>>
    /** `mUserToSerialMap`: user to serial, null until the cache is enabled. */
    var userToSerial: Option<map<UserHandle, int>>

    ghost predicate Valid()
      reads this
    {
      CacheConsistent(users, userToSerial)
    }

    constructor ()
      ensures Valid() && users.None? && userToSerial.None?
    {
      users := None;
      userToSerial := None;
    }

    /** `enableAndResetCache()`: rebuilds both maps from the system's profile
        list (`profiles`, null allowed) and its serial numbers. */
    method EnableAndResetCache(profiles: Option<seq<UserHandle>>, serialOf: UserHandle -> int)
      modifies this
      ensures Valid()
      ensures profiles.None? ==> users == Some(map[]) && userToSerial == Some(map[])
      ensures profiles.Some? ==> (users == Some(UsersBySerial(profiles.value, serialOf))
                                  && userToSerial == Some(SerialsByUser(profiles.value, serialOf)))
    {
      var bySerial: map<int, UserHandle> := map[];
      var byUser: map<UserHandle, int> := map[];
      if profiles.Some? {
        var ps := profiles.value;
        for i := 0 to |ps|
          invariant bySerial == UsersBySerial(ps[..i], serialOf)
          invariant byUser == SerialsByUser(ps[..i], serialOf)
        {
          assert ps[..i + 1][..i] == ps[..i];
          var serial := serialOf(ps[i]);
          bySerial := bySerial[serial := ps[i]];
          byUser := byUser[ps[i] := serial];
        }
        assert ps[..|ps|] == ps;
        UsersBySerialSound(ps, serialOf);
      }
      users := Some(bySerial);
      userToSerial := Some(byUser);
    }

    /** `getSerialNumberForUser(user)`: from the cache (0 for a user it does
        not hold) once enabled, else from the system. */
    function GetSerialNumberForUser(user: UserHandle, systemSerialOf: UserHandle -> int): (r: int)
      reads this
      ensures userToSerial.Some? && user in userToSerial.value ==> r == userToSerial.value[user]
      ensures userToSerial.Some? && user !in userToSerial.value ==> r == 0
      ensures userToSerial.None? ==> r == systemSerialOf(user)
    {
      if userToSerial.Some? then (if user in userToSerial.value then userToSerial.value[user] else 0)
      else systemSerialOf(user)
    }

    /** `getUserForSerialNumber(serial)`: from the cache (null for an unknown
        serial) once enabled, else from the system. */
    function GetUserForSerialNumber(serial: int, systemUserOf: int -> Option<UserHandle>): (r: Option<UserHandle>)
      reads this
      ensures users.Some? ==> (r.Some? <==> serial in users.value)
      ensures users.Some? && r.Some? ==> r.value == users.value[serial]
      ensures users.None? ==> r == systemUserOf(serial)
    {
      if users.Some? then (if serial in users.value then Some(users.value[serial]) else None)
      else systemUserOf(serial)
    }

    /** A user found by serial in the cache gives that serial back. */
    lemma SerialOfCachedUser(serial: int, systemUserOf: int -> Option<UserHandle>, systemSerialOf: UserHandle -> int)
      requires Valid() && users.Some?
      requires GetUserForSerialNumber(serial, systemUserOf).Some?
      ensures GetSerialNumberForUser(GetUserForSerialNumber(serial, systemUserOf).value, systemSerialOf) == serial
    {
    }

    /** `getUserProfiles()`: the cached users once enabled (in the map's own
        order, which is unspecified), else a copy of the system's list, or
        an empty list when it is null. */
    method GetUserProfiles(profiles: Option<seq<UserHandle>>) returns (r: seq<UserHandle>)
      requires Valid()
      ensures users.Some? ==> (set u | u in r) == userToSerial.value.Keys
      ensures users.Some? ==> forall i, j :: 0 <= i < j < |r| ==> r[i] != r[j]
      ensures users.None? && profiles.None? ==> r == []
      ensures users.None? && profiles.Some? ==> r == profiles.value
    {
      if users.Some? {
        var rest := userToSerial.value.Keys;
        r := [];
        while rest != {}
          invariant rest !! (set u | u in r)
          invariant rest + (set u | u in r) == userToSerial.value.Keys
          invariant forall i, j :: 0 <= i < j < |r| ==> r[i] != r[j]
          decreases |rest|
        {
          var u :| u in rest;
          r := r + [u];
          rest := rest - {u};
        }
        return;
      }
      if profiles.None? {
        return [];
      }
      r := [];
      for i := 0 to |profiles.value|
        invariant r == profiles.value[..i]
      {
        r := r + [profiles.value[i]];
      }
    }

    /** `getUserCreationTime(user)`: the creation time stored for the user's
        serial; the first call stores the current time `now`. */
    method GetUserCreationTime(prefs: SharedPreferences, user: UserHandle, systemSerialOf: UserHandle -> int, now: int)
      returns (r: Result<int>)
      modifies prefs
      ensures var key := USER_CREATION_TIME_KEY + IntToString(GetSerialNumberForUser(user, systemSerialOf));
              if key in old(prefs.values)
              then prefs.values == old(prefs.values) && r == old(prefs.GetLong(key, 0))
              else prefs.values == old(prefs.values)[key := LongValue(now)] && r == Ok(now)
    {
      var key := USER_CREATION_TIME_KEY + IntToString(GetSerialNumberForUser(user, systemSerialOf));
      if !prefs.Contains(key) {
        prefs.PutLong(key, now);
      }
      r := prefs.GetLong(key, 0);
    }
  }
}
