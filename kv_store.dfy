/**
 * The app's MMKV key-value storage (lib/storage/mmkv.ts). Values are kept in
 * the form a JSON parse of the stored text takes: a list of cache records, a
 * value that parses but is not an array, or text that does not parse at all.
 */
module KeyValueStore {
  import opened Documents

  datatype Stored = Records(items: seq<CacheRecord>) | NotAnArray | Unparsable

  /** `getString(key, fallback)`: the stored value, or the fallback when the key is absent. */
  function GetString(entries: map<string, Stored>, key: string, fallback: Stored): (r: Stored)
    ensures key in entries ==> r == entries[key]
    ensures key !in entries ==> r == fallback
  {
    if key in entries then entries[key] else fallback
  }

  class Storage {
    var entries: map<string, Stored>

    constructor (initial: map<string, Stored>)
      ensures entries == initial
    {
      entries := initial;
    }

    /** `setString(key, value)` */
    method SetString(key: string, value: Stored)
      modifies this
      ensures entries == old(entries)[key := value]
    {
      entries := entries[key := value];
    }

    /** `removeKey(key)` */
    method RemoveKey(key: string)
      modifies this
      ensures entries == old(entries) - {key}
    {
      entries := entries - {key};
    }
  }
}
