/** A bounded cache kept in order of last use, oldest first. */
module Recency {

  datatype Entry<K, V> = Entry(key: K, value: V)

  ghost predicate KeysApart<K, V>(cache: seq<Entry<K, V>>) {
    forall i, j :: 0 <= i < j < |cache| ==> cache[i].key != cache[j].key
  }

  ghost predicate Absent<K, V>(key: K, cache: seq<Entry<K, V>>) {
    forall i :: 0 <= i < |cache| ==> cache[i].key != key
  }

  function Others<K(==), V>(cache: seq<Entry<K, V>>, key: K): seq<Entry<K, V>> {
    if cache == [] then [] else
      var n := |cache| - 1;
      Others(cache[..n], key) + if cache[n].key != key then [cache[n]] else []
  }

  function Latest<K, V>(cache: seq<Entry<K, V>>, n: nat): (r: seq<Entry<K, V>>)
    ensures |r| <= n
  {
    if |cache| <= n then cache else cache[|cache| - n..]
  }

  /** The cache after an entry is used: it becomes the newest, and the oldest go. */
  function Used<K(==), V>(cache: seq<Entry<K, V>>, e: Entry<K, V>, n: nat): seq<Entry<K, V>> {
    Latest(Others(cache, e.key) + [e], n)
  }

  function UsedAll<K(==), V>(uses: seq<Entry<K, V>>, n: nat): seq<Entry<K, V>> {
    if uses == [] then [] else Used(UsedAll(uses[..|uses| - 1], n), uses[|uses| - 1], n)
  }

  /** Every entry ever used, least recently used first. */
  function UseOrder<K(==), V>(uses: seq<Entry<K, V>>): seq<Entry<K, V>> {
    if uses == [] then [] else
      Others(UseOrder(uses[..|uses| - 1]), uses[|uses| - 1].key) + [uses[|uses| - 1]]
  }

  lemma {:induction false} OthersMembers<K, V>(cache: seq<Entry<K, V>>, key: K)
    ensures Absent(key, Others(cache, key))
    ensures forall e :: e in Others(cache, key) ==> e in cache
    decreases |cache|
  {
    if cache != [] {
      OthersMembers(cache[..|cache| - 1], key);
    }
  }

  lemma {:induction false} OthersApart<K, V>(cache: seq<Entry<K, V>>, key: K)
    requires KeysApart(cache)
    ensures KeysApart(Others(cache, key))
    decreases |cache|
  {
    if cache != [] {
      var n := |cache| - 1;
      var before := Others(cache[..n], key);
      OthersApart(cache[..n], key);
      OthersMembers(cache[..n], key);
      forall i | 0 <= i < |before| ensures before[i].key != cache[n].key {
        assert before[i] in before;
      }
    }
  }

  lemma UsedApart<K, V>(cache: seq<Entry<K, V>>, e: Entry<K, V>, n: nat)
    requires KeysApart(cache)
    ensures KeysApart(Used(cache, e, n)) && |Used(cache, e, n)| <= n
    ensures forall x :: x in Used(cache, e, n) ==> x == e || x in cache
  {
    OthersApart(cache, e.key);
    OthersMembers(cache, e.key);
  }

  lemma {:induction false} NoOthersDropped<K, V>(cache: seq<Entry<K, V>>, key: K)
    requires Absent(key, cache)
    ensures Others(cache, key) == cache
    decreases |cache|
  {
    if cache != [] {
      NoOthersDropped(cache[..|cache| - 1], key);
    }
  }

  lemma {:induction false} OthersOfBoth<K, V>(a: seq<Entry<K, V>>, b: seq<Entry<K, V>>, key: K)
    ensures Others(a + b, key) == Others(a, key) + Others(b, key)
    decreases |b|
  {
    if b == [] {
      assert a + b == a;
    } else {
      var n := |b| - 1;
      assert (a + b)[..|a + b| - 1] == a + b[..n];
      OthersOfBoth(a, b[..n], key);
    }
  }

  lemma OthersOfHead<K, V>(e: Entry<K, V>, b: seq<Entry<K, V>>)
    requires Absent(e.key, b)
    ensures Others([e] + b, e.key) == b
  {
    OthersOfBoth([e], b, e.key);
    NoOthersDropped(b, e.key);
  }

  lemma SplitAt<T>(s: seq<T>, at: nat)
    requires at < |s|
    ensures s == s[..at] + ([s[at]] + s[at + 1..])
  {
  }

  lemma OthersOfEntry<K, V>(cache: seq<Entry<K, V>>, at: nat)
    requires KeysApart(cache) && at < |cache|
    ensures Others(cache, cache[at].key) == cache[..at] + cache[at + 1..]
  {
    var a, b, key := cache[..at], cache[at + 1..], cache[at].key;
    var tail := [cache[at]] + b;
    SplitAt(cache, at);
    OthersOfBoth(a, tail, key);
    NoOthersDropped(a, key);
    OthersOfHead(cache[at], b);
  }

  lemma MovedToEnd<K, V>(cache: seq<Entry<K, V>>, at: nat, n: nat)
    requires KeysApart(cache) && at < |cache| <= n
    ensures Used(cache, cache[at], n) == cache[..at] + cache[at + 1..] + [cache[at]]
  {
    OthersOfEntry(cache, at);
  }

  lemma OthersDropOne<K, V>(cache: seq<Entry<K, V>>, key: K)
    requires KeysApart(cache)
    ensures |Others(cache, key)| >= |cache| - 1
  {
    if at: nat :| at < |cache| && cache[at].key == key {
      OthersOfEntry(cache, at);
    } else {
      NoOthersDropped(cache, key);
    }
  }

  lemma LatestOfSuffix<K, V>(a: seq<Entry<K, V>>, b: seq<Entry<K, V>>, n: nat)
    requires |b| >= n
    ensures Latest(a + b, n) == Latest(b, n)
  {
    if a == [] { assert a + b == b; }
  }

  lemma UseOfLatest<K, V>(s: seq<Entry<K, V>>, e: Entry<K, V>, n: nat)
    requires KeysApart(s) && n > 0
    ensures Used(Latest(s, n), e, n) == Latest(Others(s, e.key) + [e], n)
  {
    if |s| > n {
      var a, b := s[..|s| - n], s[|s| - n..];
      assert s == a + b;
      OthersOfBoth(a, b, e.key);
      OthersDropOne(b, e.key);
      assert Others(s, e.key) + [e] == Others(a, e.key) + (Others(b, e.key) + [e]);
      LatestOfSuffix(Others(a, e.key), Others(b, e.key) + [e], n);
    }
  }

  lemma {:induction false} UseOrderApart<K, V>(uses: seq<Entry<K, V>>)
    ensures KeysApart(UseOrder(uses))
    decreases |uses|
  {
    if uses != [] {
      var before := UseOrder(uses[..|uses| - 1]);
      UseOrderApart(uses[..|uses| - 1]);
      OthersApart(before, uses[|uses| - 1].key);
      OthersMembers(before, uses[|uses| - 1].key);
    }
  }

  /** However many entries are used, the bounded cache is the most recent part of the
      unbounded use order: what it evicted was always used longest ago. */
  lemma {:induction false} CacheIsMostRecent<K, V>(uses: seq<Entry<K, V>>, n: nat)
    requires n > 0
    ensures UsedAll(uses, n) == Latest(UseOrder(uses), n)
    decreases |uses|
  {
    if uses != [] {
      CacheIsMostRecent(uses[..|uses| - 1], n);
      UseOrderApart(uses[..|uses| - 1]);
      UseOfLatest(UseOrder(uses[..|uses| - 1]), uses[|uses| - 1], n);
    }
  }
}
