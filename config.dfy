/**
 * The configuration file, taken as a map from keys to strings. The JSON
 * encoding, the file lock and the directory handling are not modelled.
 */
module Settings {

  /** The text the Go `Query` returns: the string stored under `key`, or `""` without one. */
  function Value(entries: map<string, string>, key: string): string
  {
    if key in entries then entries[key] else ""
  }

  class Config {
    var entries: map<string, string>

    constructor (initial: map<string, string>)
      ensures entries == initial
    {
      entries := initial;
    }

    /** `Conf.Query` (and `QueryString`): a missing key reads as the empty string. */
    function Query(key: string): string
      reads this
    {
      Value(entries, key)
    }

    /** `Conf.Set`: store `val` under `key`. */
    method Set(key: string, val: string)
      modifies this
      ensures entries == old(entries)[key := val]
      ensures Query(key) == val
      ensures forall k :: k != key ==> Query(k) == old(Query(k))
    {
      entries := entries[key := val];
    }

    /** `Conf.Del`: drop `key` if present; otherwise the file is left as it is. */
    method Del(key: string)
      modifies this
      ensures entries == old(entries) - {key}
      ensures key !in entries && Query(key) == ""
      ensures old(key !in entries) ==> entries == old(entries)
      ensures forall k :: k != key ==> Query(k) == old(Query(k))
    {
      if key in entries {
        entries := entries - {key};
      }
    }
  }

  /** Whatever was set, reading it back gives it, until it is deleted. */
  lemma SetThenDel(entries: map<string, string>, key: string, val: string)
    ensures Value(entries[key := val], key) == val
    ensures Value(entries[key := val] - {key}, key) == ""
    ensures key !in entries ==> entries[key := val] - {key} == entries
  {
  }
}
