/** The result order shared by lexical search and pool ranking: best score first,
    ties broken by candidate key.  Any list sorted that way is determined by its
    elements, so the iteration order of the dictionaries a list was built from is
    irrelevant. */
module Ordering {
  import opened FiniteSets
  import opened Sequences

  type Key = string

  /** Strict lexicographic order by code point. */
  predicate KeyLess(a: Key, b: Key) {
    b != [] && (a == [] || a[0] < b[0] || (a[0] == b[0] && KeyLess(a[1..], b[1..])))
  }

  lemma {:induction false} KeyLessTotal(a: Key, b: Key)
    ensures a != b ==> KeyLess(a, b) || KeyLess(b, a)
    ensures !(KeyLess(a, b) && KeyLess(b, a))
    decreases |a|
  {
    if a != [] && b != [] && a[0] == b[0] {
      KeyLessTotal(a[1..], b[1..]);
      assert a == [a[0]] + a[1..] && b == [b[0]] + b[1..];
    }
  }

  lemma {:induction false} KeyLessTransitive(a: Key, b: Key, c: Key)
    requires KeyLess(a, b) && KeyLess(b, c)
    ensures KeyLess(a, c)
    decreases |a|
  {
    if a != [] && a[0] == b[0] == c[0] {
      KeyLessTransitive(a[1..], b[1..], c[1..]);
    }
  }

  datatype Scored = Scored(key: Key, score: real)

  /** `a` sorts strictly before `b` under the sort key (-score, key). */
  predicate Before(a: Scored, b: Scored) {
    a.score > b.score || (a.score == b.score && KeyLess(a.key, b.key))
  }

  lemma BeforeTotal(a: Scored, b: Scored)
    ensures a != b ==> Before(a, b) || Before(b, a)
    ensures !(Before(a, b) && Before(b, a))
  {
    KeyLessTotal(a.key, b.key);
  }

  lemma BeforeTransitive(a: Scored, b: Scored, c: Scored)
    requires Before(a, b) && Before(b, c)
    ensures Before(a, c)
  {
    if a.score == b.score == c.score {
      KeyLessTransitive(a.key, b.key, c.key);
    }
  }

  ghost predicate Ranked(s: seq<Scored>) {
    forall i, j :: 0 <= i < j < |s| ==> Before(s[i], s[j])
  }

  /** `s` lists exactly the entries of `hits`, best first. */
  ghost predicate IsRankingOf(s: seq<Scored>, hits: map<Key, real>) {
    && Ranked(s)
    && (forall x :: x in s <==> x.key in hits && hits[x.key] == x.score)
  }

  function Insert(x: Scored, s: seq<Scored>): (r: seq<Scored>)
    ensures multiset(r) == multiset(s) + multiset{x}
  {
    if s == [] || !Before(s[0], x) then
      [x] + s
    else
      assert s == [s[0]] + s[1..];
      [s[0]] + Insert(x, s[1..])
  }

  /** The library sort with key (-score, key). */
  function Sort(s: seq<Scored>): (r: seq<Scored>)
    ensures multiset(r) == multiset(s)
  {
    if s == [] then [] else
      assert s == [s[0]] + s[1..];
      Insert(s[0], Sort(s[1..]))
  }

  lemma {:induction false} InsertRanked(x: Scored, s: seq<Scored>)
    requires Ranked(s) && x !in s
    ensures Ranked(Insert(x, s))
    decreases |s|
  {
    var r := Insert(x, s);
    if s == [] {
    } else if !Before(s[0], x) {
      BeforeTotal(s[0], x);
      forall j | 0 <= j < |s| ensures Before(x, s[j]) {
        if j > 0 { BeforeTransitive(x, s[0], s[j]); }
      }
    } else {
      InsertRanked(x, s[1..]);
      assert r == [s[0]] + Insert(x, s[1..]);
      forall j | 0 < j < |r| ensures Before(r[0], r[j]) {
        assert r[j] in multiset(Insert(x, s[1..]));
        if r[j] != x { assert r[j] in s[1..]; }
      }
    }
  }

  /** Sorting a list without repeated entries ranks it. */
  lemma {:induction false} SortRanked(s: seq<Scored>)
    requires NoDuplicates(s)
    ensures Ranked(Sort(s))
    ensures forall x :: x in Sort(s) <==> x in s
    decreases |s|
  {
    if s != [] {
      SortRanked(s[1..]);
      assert s[0] !in s[1..];
      InsertRanked(s[0], Sort(s[1..]));
    }
    forall x ensures x in Sort(s) <==> x in s {
      assert x in Sort(s) <==> x in multiset(Sort(s));
      assert x in s <==> x in multiset(s);
    }
  }

  /** A ranked list is determined by the entries it holds. */
  lemma {:induction false} RankedUnique(a: seq<Scored>, b: seq<Scored>)
    requires Ranked(a) && Ranked(b)
    requires forall x :: x in a <==> x in b
    ensures a == b
    decreases |a|
  {
    assert b != [] ==> b[0] in b;
    if a != [] {
      assert a[0] in b && b[0] in a;
      if a[0] != b[0] {
        var i :| 0 <= i < |b| && b[i] == a[0];
        var j :| 0 <= j < |a| && a[j] == b[0];
        BeforeTotal(a[0], b[0]);
        assert false;
      }
      forall x ensures x in a[1..] <==> x in b[1..] {
        RankedTail(a, x);
        RankedTail(b, x);
      }
      RankedUnique(a[1..], b[1..]);
    }
  }

  lemma RankedTail(s: seq<Scored>, x: Scored)
    requires s != [] && Ranked(s)
    ensures x in s[1..] <==> x in s && x != s[0]
  {
    if x in s && x != s[0] {
      var i :| 0 <= i < |s| && s[i] == x;
      assert s[1..][i - 1] == x;
    }
    if x in s[1..] {
      var i :| 0 <= i < |s[1..]| && s[1..][i] == x;
      BeforeTotal(s[0], s[i + 1]);
      assert Before(s[0], s[i + 1]);
    }
  }

  /** The ranking of a finite score table exists ... */
  lemma {:induction false} RankingExists(hits: map<Key, real>)
    ensures exists s :: IsRankingOf(s, hits)
    decreases |hits|
  {
    if hits == map[] {
      assert IsRankingOf([], hits);
    } else {
      var k :| k in hits;
      var rest := hits - {k};
      RankingExists(rest);
      var s :| IsRankingOf(s, rest);
      var x := Scored(k, hits[k]);
      InsertRanked(x, s);
      forall y ensures y in Insert(x, s) <==> y.key in hits && hits[y.key] == y.score {
        assert y in Insert(x, s) <==> y in multiset(s) + multiset{x};
      }
      assert IsRankingOf(Insert(x, s), hits);
    }
  }

  /** ... and this is it. */
  ghost function RankingOf(hits: map<Key, real>): (s: seq<Scored>)
    ensures IsRankingOf(s, hits)
  {
    RankingExists(hits);
    var s :| IsRankingOf(s, hits);
    s
  }

  /** Sorting any duplicate-free listing of a score table gives its ranking. */
  lemma SortIsRankingOf(s: seq<Scored>, hits: map<Key, real>)
    requires NoDuplicates(s)
    requires forall x :: x in s <==> x.key in hits && hits[x.key] == x.score
    ensures Sort(s) == RankingOf(hits)
  {
    SortRanked(s);
    RankedUnique(Sort(s), RankingOf(hits));
  }

  /** Python's `s[:limit]`, negative limits included. */
  function Take<T>(s: seq<T>, limit: int): (r: seq<T>)
    ensures r <= s
  {
    if limit >= |s| then s
    else if limit >= 0 then s[..limit]
    else if |s| + limit >= 0 then s[..|s| + limit]
    else []
  }

  lemma TakePrefix<T>(s: seq<T>, small: int, large: int)
    requires 0 <= small <= large
    ensures Take(s, small) <= Take(s, large)
    ensures |Take(s, small)| == if small < |s| then small else |s|
  {
  }

  lemma EntryListed(s: seq<Scored>, hits: map<Key, real>, k: Key)
    requires IsRankingOf(s, hits) && k in hits
    ensures Scored(k, hits[k]) in s
  {
  }

  lemma {:induction false} RankingSize(s: seq<Scored>, hits: map<Key, real>)
    requires IsRankingOf(s, hits)
    ensures |s| == |hits|
    decreases |s|
  {
    if s == [] {
      assert hits.Keys == {} by {
        if k :| k in hits.Keys {
          EntryListed(s, hits, k);
        }
      }
    } else {
      var x := s[0];
      assert x in s;
      var rest := hits - {x.key};
      forall y ensures y in s[1..] <==> y.key in rest && rest[y.key] == y.score {
        RankedTail(s, y);
      }
      RankingSize(s[1..], rest);
      assert |hits.Keys - {x.key}| == |hits.Keys| - 1;
      assert rest.Keys == hits.Keys - {x.key};
    }
  }

  /** `r` holds the best `limit` entries of `hits`, and whatever is left out ranks
      after everything kept. */
  ghost predicate IsTop(r: seq<Scored>, hits: map<Key, real>, limit: nat) {
    && Ranked(r)
    && |r| == (if limit < |hits| then limit else |hits|)
    && (forall x :: x in r ==> x.key in hits && hits[x.key] == x.score)
    && (forall x, k :: x in r && k in hits && Scored(k, hits[k]) !in r ==> Before(x, Scored(k, hits[k])))
  }

  lemma TopMeaning(hits: map<Key, real>, limit: nat)
    ensures IsTop(Take(RankingOf(hits), limit), hits, limit)
  {
    var all := RankingOf(hits);
    var r := Take(all, limit);
    RankingSize(all, hits);
    forall x | x in r ensures x in all {}
    forall x, k | x in r && k in hits && Scored(k, hits[k]) !in r ensures Before(x, Scored(k, hits[k])) {
      var i :| 0 <= i < |r| && r[i] == x;
      var j :| 0 <= j < |all| && all[j] == Scored(k, hits[k]);
      assert all[j] !in all[..|r|] && j >= |r|;
    }
  }

  ghost function Members(s: seq<Scored>): set<Scored> {
    set x | x in s
  }

  lemma {:induction false} RankedMembers(s: seq<Scored>)
    requires Ranked(s)
    ensures |Members(s)| == |s|
    decreases |s|
  {
    if s != [] {
      RankedMembers(s[1..]);
      forall x ensures x in s[1..] <==> x in s && x != s[0] { RankedTail(s, x); }
      assert Members(s) == Members(s[1..]) + {s[0]};
    }
  }

  lemma TopContains(a: seq<Scored>, b: seq<Scored>, hits: map<Key, real>, limit: nat)
    requires IsTop(a, hits, limit) && IsTop(b, hits, limit)
    ensures Members(a) <= Members(b)
  {
    RankedMembers(a);
    RankedMembers(b);
    if Members(b) <= Members(a) {
      SubsetSize(Members(b), Members(a));
    } else {
      var y :| y in Members(b) && y !in Members(a);
      forall x | x in a ensures x in b {
        TopKeeps(a, b, hits, limit, x, y);
      }
    }
  }

  lemma TopKeeps(a: seq<Scored>, b: seq<Scored>, hits: map<Key, real>, limit: nat, x: Scored, y: Scored)
    requires IsTop(a, hits, limit) && IsTop(b, hits, limit)
    requires x in a && y in b && y !in a
    ensures x in b
  {
    assert Scored(x.key, hits[x.key]) == x && Scored(y.key, hits[y.key]) == y;
    BeforeTotal(x, y);
  }

  /** The top of a score table is one list. */
  lemma TopUnique(a: seq<Scored>, b: seq<Scored>, hits: map<Key, real>, limit: nat)
    requires IsTop(a, hits, limit) && IsTop(b, hits, limit)
    ensures a == b
  {
    TopContains(a, b, hits, limit);
    TopContains(b, a, hits, limit);
    forall x ensures x in a <==> x in b {
      assert x in a <==> x in Members(a);
      assert x in b <==> x in Members(b);
    }
    RankedUnique(a, b);
  }

  lemma RankingInjective(a: map<Key, real>, b: map<Key, real>)
    requires RankingOf(a) == RankingOf(b)
    ensures a == b
  {
    var s := RankingOf(a);
    forall k ensures k in a <==> k in b ensures k in a && k in b ==> a[k] == b[k] {
      assert k in a ==> Scored(k, a[k]) in s;
      assert k in b ==> Scored(k, b[k]) in s;
    }
  }
}
