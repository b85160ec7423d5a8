/** The two mutable containers the merge changes in place: a Python list and
    a Python dict of JSON values. */
module Containers {
  import opened Values

  /** A list of JSON values that the merge appends to in place. */
  class JsonList {
    var items: seq<Json>

    constructor (items: seq<Json>)
      ensures this.items == items
    {
      this.items := items;
    }

    /** `list.append(x)` */
    method Append(x: Json)
      modifies this
      ensures items == old(items) + [x]
    {
      items := items + [x];
    }
  }

  /** A dict with JSON values that the merge updates in place; it keeps
      insertion order. */
  class JsonDict {
    var entries: Object

    constructor (entries: Object)
      ensures this.entries == entries
    {
      this.entries := entries;
    }

    /** `key in d` (see `HasKeyAt`) */
    predicate Contains(key: string)
      reads this
    {
      HasKey(entries, key)
    }

    /** `d[key]` (see `LookupIn`) */
    function Get(key: string): Json
      reads this
      requires Contains(key)
    {
      Lookup(entries, key)
    }

    /** `d[key] = value` */
    method Set(key: string, value: Json)
      modifies this
      ensures entries == Put(old(entries), key, value)
    {
      entries := Put(entries, key, value);
    }
  }
}
