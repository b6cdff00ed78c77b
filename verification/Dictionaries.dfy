/** Insertion-ordered dictionaries of lists: a key list next to a map. */
module Dictionaries {

  /** Appending to a defaulting dictionary entry. */
  function GroupsWith<K, V>(groups: map<K, seq<V>>, k: K, v: V): map<K, seq<V>> {
    groups[k := (if k in groups then groups[k] else []) + [v]]
  }

  function KeysWith<K, V>(keys: seq<K>, groups: map<K, seq<V>>, k: K): seq<K> {
    if k in groups then keys else keys + [k]
  }
}
