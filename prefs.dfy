/** `android.content.SharedPreferences` as an in-memory map from keys to
    typed values. Reading a key through a getter of another type throws
    `ClassCastException`, as the platform implementation does; writes made
    through an editor's `apply()` are visible at once. */
module Prefs {
  import opened Java

  datatype PrefValue =
    | BoolValue(b: bool)
    | StringValue(s: string)
    | IntValue(i: int)
    | LongValue(l: int)
    | FloatValue(f: real)

  /** `getBoolean(key, def)` on a snapshot of the stored values. */
  function BooleanIn(values: map<string, PrefValue>, key: string, def: bool): Result<bool>
  {
    if key !in values then Ok(def)
    else if values[key].BoolValue? then Ok(values[key].b)
    else Throws(ClassCast)
  }

  /** `getInt(key, def)` on a snapshot of the stored values. */
  function IntIn(values: map<string, PrefValue>, key: string, def: int): Result<int>
  {
    if key !in values then Ok(def)
    else if values[key].IntValue? then Ok(values[key].i)
    else Throws(ClassCast)
  }

  class SharedPreferences {
    var values: map<string, PrefValue>

    constructor (initial: map<string, PrefValue>)
      ensures values == initial
    {
      values := initial;
    }

    function Contains(key: string): bool
      reads this
    {
      key in values
    }

    /** `getBoolean(key, def)`. */
    function GetBoolean(key: string, def: bool): (r: Result<bool>)
      reads this
      ensures key !in values ==> r == Ok(def)
      ensures key in values && values[key].BoolValue? ==> r == Ok(values[key].b)
      ensures key in values && !values[key].BoolValue? ==> r == Throws(ClassCast)
    {
      BooleanIn(values, key, def)
    }

    /** `getString(key, def)`. */
    function GetString(key: string, def: string): (r: Result<string>)
      reads this
      ensures key !in values ==> r == Ok(def)
      ensures key in values && values[key].StringValue? ==> r == Ok(values[key].s)
      ensures key in values && !values[key].StringValue? ==> r == Throws(ClassCast)
    {
      if key !in values then Ok(def)
      else if values[key].StringValue? then Ok(values[key].s)
      else Throws(ClassCast)
    }

    /** `getInt(key, def)`. */
    function GetInt(key: string, def: int): (r: Result<int>)
      reads this
      ensures key !in values ==> r == Ok(def)
      ensures key in values && values[key].IntValue? ==> r == Ok(values[key].i)
      ensures key in values && !values[key].IntValue? ==> r == Throws(ClassCast)
    {
      IntIn(values, key, def)
    }

    /** `getLong(key, def)`. */
    function GetLong(key: string, def: int): (r: Result<int>)
      reads this
      ensures key !in values ==> r == Ok(def)
      ensures key in values && values[key].LongValue? ==> r == Ok(values[key].l)
      ensures key in values && !values[key].LongValue? ==> r == Throws(ClassCast)
    {
      if key !in values then Ok(def)
      else if values[key].LongValue? then Ok(values[key].l)
      else Throws(ClassCast)
    }

    /** `getFloat(key, def)`. */
    function GetFloat(key: string, def: real): (r: Result<real>)
      reads this
      ensures key !in values ==> r == Ok(def)
      ensures key in values && values[key].FloatValue? ==> r == Ok(values[key].f)
      ensures key in values && !values[key].FloatValue? ==> r == Throws(ClassCast)
    {
      if key !in values then Ok(def)
      else if values[key].FloatValue? then Ok(values[key].f)
      else Throws(ClassCast)
    }

    /** `edit().putBoolean(key, v).apply()`. */
    method PutBoolean(key: string, v: bool)
      modifies this
      ensures values == old(values)[key := BoolValue(v)]
    {
      values := values[key := BoolValue(v)];
    }

    /** `edit().putLong(key, v).apply()`. */
    method PutLong(key: string, v: int)
      modifies this
      ensures values == old(values)[key := LongValue(v)]
    {
      values := values[key := LongValue(v)];
    }
  }
}
