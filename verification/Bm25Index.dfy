/** The index object: four structures updated in place, and the search that reads
    them.  Every method is tied to the plain corpus through `Lexical` and `Bm25`. */
module Bm25Index {
  import opened Options
  import opened Ordering
  import opened Sums
  import opened FiniteSets
  import opened Lexical
  import opened Recency
  import opened Sequences
  import Bm25

  datatype Query = Query(tokens: seq<Token>, exacts: set<Identifier>)

  datatype CacheKey = CacheKey(tokens: seq<Token>, limit: int, boost: real)
  type CacheEntry = Entry<CacheKey, seq<Scored>>

  const CACHE_MAX := 256

  function Tokens(s: seq<Token>): set<Token> {
    set t | t in s
  }

  /** Among the first `n` tokens, `x` occurs where `y` has not occurred yet. */
  ghost predicate OccursFirst(tokens: seq<Token>, n: nat, x: Token, y: Token)
    requires n <= |tokens|
  {
    exists m :: 0 <= m < n && tokens[m] == x && y !in tokens[..m]
  }

  ghost predicate Ordered(unique: seq<Token>, tokens: seq<Token>, n: nat)
    requires n <= |tokens|
  {
    && NoDuplicates(unique)
    && Tokens(unique) == Tokens(tokens[..n])
    && forall i, j :: 0 <= i < j < |unique| ==> OccursFirst(tokens, n, unique[i], unique[j])
  }

  /** The tokens without repetition, each where it occurs first. */
  function Unique(tokens: seq<Token>): seq<Token> {
    if tokens == [] then [] else
      var n := |tokens| - 1;
      Unique(tokens[..n]) + if tokens[n] in Unique(tokens[..n]) then [] else [tokens[n]]
  }

  lemma {:induction false} UniqueMeaning(tokens: seq<Token>)
    ensures NoDuplicates(Unique(tokens)) && Tokens(Unique(tokens)) == Tokens(tokens)
    ensures Ordered(Unique(tokens), tokens, |tokens|)
    decreases |tokens|
  {
    if tokens != [] {
      var n := |tokens| - 1;
      UniqueMeaning(tokens[..n]);
      OrderedWithin(Unique(tokens[..n]), tokens, n);
      UniqueStep(tokens, Unique(tokens[..n]), n);
    }
    assert tokens[..|tokens|] == tokens;
  }

  lemma OrderedWithin(unique: seq<Token>, tokens: seq<Token>, n: nat)
    requires n <= |tokens| && Ordered(unique, tokens[..n], n)
    ensures Ordered(unique, tokens, n)
  {
    assert tokens[..n][..n] == tokens[..n];
    forall i, j | 0 <= i < j < |unique| ensures OccursFirst(tokens, n, unique[i], unique[j]) {
      assert OccursFirst(tokens[..n], n, unique[i], unique[j]);
      var m :| 0 <= m < n && tokens[..n][m] == unique[i] && unique[j] !in tokens[..n][..m];
      assert tokens[..n][..m] == tokens[..m];
    }
  }

  method UniqueTokens(tokens: seq<Token>) returns (unique: seq<Token>)
    ensures unique == Unique(tokens)
  {
    unique := [];
    for n := 0 to |tokens|
      invariant unique == Unique(tokens[..n])
    {
      assert tokens[..n + 1][..n] == tokens[..n];
      if tokens[n] !in unique {
        unique := unique + [tokens[n]];
      }
    }
    assert tokens[..|tokens|] == tokens;
  }

  lemma UniqueStep(tokens: seq<Token>, unique: seq<Token>, n: nat)
    requires n < |tokens| && Ordered(unique, tokens, n)
    ensures Ordered(if tokens[n] in unique then unique else unique + [tokens[n]], tokens, n + 1)
  {
    var t := tokens[n];
    assert tokens[..n + 1] == tokens[..n] + [t];
    assert Tokens(tokens[..n + 1]) == Tokens(tokens[..n]) + {t};
    assert t in unique <==> t in Tokens(unique);
    var more := if t in unique then unique else unique + [t];
    assert Tokens(more) == Tokens(unique) + {t};
    forall i, j | 0 <= i < j < |more| ensures OccursFirst(tokens, n + 1, more[i], more[j]) {
      if j < |unique| {
        assert OccursFirst(tokens, n, unique[i], unique[j]);
      } else {
        OccursBeforeNew(tokens, n, unique[i]);
      }
    }
  }

  lemma OccursBeforeNew(tokens: seq<Token>, n: nat, x: Token)
    requires n < |tokens| && x in Tokens(tokens[..n]) && tokens[n] !in tokens[..n]
    ensures OccursFirst(tokens, n + 1, x, tokens[n])
  {
    var m :| 0 <= m < n && tokens[m] == x;
    assert tokens[..m] <= tokens[..n];
    assert tokens[n] !in tokens[..m];
  }

  function Restrict(tf: map<Token, nat>, to: set<Token>): map<Token, nat> {
    map t | t in tf && t in to :: tf[t]
  }

  lemma RestrictAll(tf: map<Token, nat>)
    ensures Restrict(tf, tf.Keys) == tf
  {
  }

  /** The per-candidate term frequencies a search collects from the postings. */
  ghost function Slots(docs: map<Key, Doc>, tokens: set<Token>): map<Key, map<Token, nat>> {
    map k | k in Bm25.Matching(docs, tokens) :: Restrict(docs[k].tf, tokens)
  }

  ghost function Answer(idf: Bm25.Idf, docs: map<Key, Doc>, stats: map<Token, Stat>, key: CacheKey,
                        exacts: set<Identifier>): seq<Scored>
  {
    Bm25.SearchBy(idf, docs, Bm25.CountsOf(stats), Bm25.Probe(Tokens(key.tokens), exacts, key.boost), key.limit)
  }

  ghost predicate Coheres(cache: seq<CacheEntry>, filledWith: map<CacheKey, set<Identifier>>, idf: Bm25.Idf,
                          docs: map<Key, Doc>, stats: map<Token, Stat>)
  {
    && |cache| <= CACHE_MAX
    && KeysApart(cache)
    && forall e :: e in cache ==> e.key in filledWith && e.value == Answer(idf, docs, stats, e.key, filledWith[e.key])
  }

  lemma CoheresUsed(cache: seq<CacheEntry>, filledWith: map<CacheKey, set<Identifier>>, idf: Bm25.Idf,
                    docs: map<Key, Doc>, stats: map<Token, Stat>, e: CacheEntry, exacts: set<Identifier>)
    requires Coheres(cache, filledWith, idf, docs, stats)
    requires e.value == Answer(idf, docs, stats, e.key, exacts)
    requires e in cache ==> e.key in filledWith && filledWith[e.key] == exacts
    requires e !in cache ==> forall x :: x in cache ==> x.key != e.key
    ensures Coheres(Used(cache, e, CACHE_MAX), filledWith[e.key := exacts], idf, docs, stats)
  {
    UsedApart(cache, e, CACHE_MAX);
    var filled := filledWith[e.key := exacts];
    forall x | x in Used(cache, e, CACHE_MAX)
      ensures x.key in filled && x.value == Answer(idf, docs, stats, x.key, filled[x.key])
    {
      if x != e && x.key == e.key {
        SameKeySameEntry(cache, x, e);
      }
    }
  }

  lemma CoheresNew(cache: seq<CacheEntry>, filledWith: map<CacheKey, set<Identifier>>, idf: Bm25.Idf,
                   docs: map<Key, Doc>, stats: map<Token, Stat>, e: CacheEntry, exacts: set<Identifier>)
    requires Coheres(cache, filledWith, idf, docs, stats)
    requires e.value == Answer(idf, docs, stats, e.key, exacts)
    requires Others(cache, e.key) == cache && forall x :: x in cache ==> x.key != e.key
    ensures Coheres(Latest(cache + [e], CACHE_MAX), filledWith[e.key := exacts], idf, docs, stats)
    ensures Latest(cache + [e], CACHE_MAX) == Used(cache, e, CACHE_MAX)
  {
    CoheresUsed(cache, filledWith, idf, docs, stats, e, exacts);
  }

  lemma SameKeySameEntry(cache: seq<CacheEntry>, x: CacheEntry, e: CacheEntry)
    requires KeysApart(cache) && x in cache && e in cache && x.key == e.key
    ensures x == e
  {
    var i :| 0 <= i < |cache| && cache[i] == x;
    var j :| 0 <= j < |cache| && cache[j] == e;
  }

  class BM25Index {
    const idf: Bm25.Idf
    var docs: map<Key, Doc>
    var stats: map<Token, Stat>
    var postings: map<Token, seq<Posting>>
    var averageDocLen: real
    /** Oldest entry first. */
    var cache: seq<CacheEntry>
    /** For each cached key, the exact identifiers of the query that filled it. */
    ghost var filledWith: map<CacheKey, set<Identifier>>

    ghost function State(): Index
      reads this
    {
      Index(docs, stats, postings)
    }

    ghost predicate Coherent()
      reads this`docs, this`stats, this`cache, this`filledWith
    {
      Coheres(cache, filledWith, idf, docs, stats)
    }

    /** Documents, postings and average fit together; the statistics need not. */
    ghost predicate Scorable()
      reads this`docs, this`stats, this`postings, this`averageDocLen
    {
      && DocsConsistent(docs) && averageDocLen == Bm25.Average(docs)
      && (forall t :: PostingsConsistent(docs, postings, t))
      && (forall t :: t in stats ==> stats[t].df > 0)
    }

    ghost predicate Searchable()
      reads this
    {
      Scorable() && Coherent()
    }

    ghost predicate Valid()
      reads this
    {
      Consistent(State()) && averageDocLen == Bm25.Average(docs) && Coherent()
    }

    lemma ValidSearchable()
      requires Valid()
      ensures Searchable()
    {
      forall t ensures PostingsConsistent(docs, postings, t) && (t in stats ==> stats[t].df > 0) {
        assert StatConsistent(docs, stats, t);
      }
    }

    /** What a search that misses the cache returns: the corpus scored with the document
        frequencies of the statistics. */
    ghost function Fresh(key: CacheKey, exacts: set<Identifier>): seq<Scored>
      reads this`docs, this`stats
    {
      Answer(idf, docs, stats, key, exacts)
    }

    /** In a valid index that is the scan of the corpus. */
    lemma FreshIsScan(key: CacheKey, exacts: set<Identifier>)
      requires Consistent(State())
      ensures Fresh(key, exacts) ==
              Bm25.Search(idf, docs, Bm25.Probe(Tokens(key.tokens), exacts, key.boost), key.limit)
    {
      var p := Bm25.Probe(Tokens(key.tokens), exacts, key.boost);
      CountsAgree(docs, stats);
      Bm25.SameCountsSameSearch(idf, docs, Bm25.CountsOf(stats), Bm25.CountsIn(docs), p, key.limit);
      Bm25.TrueCounts(idf, docs, p, key.limit);
    }

    constructor (idf: Bm25.Idf)
      ensures Valid() && State() == EMPTY && cache == [] && this.idf == idf
    {
      this.idf := idf;
      docs, stats, postings := map[], map[], map[];
      averageDocLen := 0.0;
      cache := [];
      filledWith := map[];
      new;
      EmptyConsistent();
    }

    // -- population ------------------------------------------------------------

    method CountTf(tf: map<Token, nat>)
      modifies this`stats
      ensures stats == AddStats(old(stats), tf)
    {
      var todo := tf.Keys;
      ghost var done: set<Token> := {};
      while todo != {}
        invariant done + todo == tf.Keys && done !! todo
        invariant stats == AddStats(old(stats), Restrict(tf, done))
        decreases |todo|
      {
        var t :| t in todo;
        CountStep(old(stats), tf, done, t);
        todo, done := todo - {t}, done + {t};
        var before := if t in stats then stats[t] else Stat(0, 0);
        stats := stats[t := Stat(before.df + 1, before.totalTf + tf[t])];
      }
      assert done == tf.Keys;
      RestrictAll(tf);
    }

    method PostTf(key: Key, tf: map<Token, nat>)
      modifies this`postings
      ensures postings == AddPostings(old(postings), key, tf)
    {
      var todo := tf.Keys;
      ghost var done: set<Token> := {};
      NothingAdded(postings, key, tf);
      while todo != {}
        invariant done + todo == tf.Keys && done !! todo
        invariant postings == AddPostings(old(postings), key, Restrict(tf, done))
        decreases |todo|
      {
        var t :| t in todo;
        PostStep(old(postings), key, tf, done, t);
        todo, done := todo - {t}, done + {t};
        var before := if t in postings then postings[t] else [];
        postings := postings[t := before + [Posting(key, tf[t])]];
      }
      assert done == tf.Keys;
      RestrictAll(tf);
    }

    /** Insert or replace one document without touching the average or the cache. */
    method AddOne(r: Record)
      modifies this`docs, this`stats, this`postings
      ensures State() == AddDoc(old(State()), r)
    {
      if r.key in docs {
        RemoveInternal(r.key);
      }
      var doc := DocOf(r);
      CountTf(doc.tf);
      PostTf(r.key, doc.tf);
      docs := docs[r.key := doc];
    }

    method RemoveInternal(key: Key)
      modifies this`docs, this`stats, this`postings
      ensures State() == RemoveDoc(old(State()), key)
    {
      if key in docs {
        var tf := Counter(docs[key].tokens);
        docs := docs - {key};
        Forget(key, tf);
      }
    }

    method Forget(key: Key, tf: map<Token, nat>)
      modifies this`stats, this`postings
      ensures stats == RemoveStats(old(stats), tf)
      ensures postings == RemovePostings(old(postings), old(stats), key, tf)
    {
      var todo := tf.Keys;
      ghost var done: set<Token> := {};
      NothingRemoved(stats, postings, key, tf);
      while todo != {}
        invariant done + todo == tf.Keys && done !! todo
        invariant stats == RemoveStats(old(stats), Restrict(tf, done))
        invariant postings == RemovePostings(old(postings), old(stats), key, Restrict(tf, done))
        decreases |todo|
      {
        var t :| t in todo;
        UncountStep(old(stats), tf, done, t);
        UnpostStep(old(postings), old(stats), key, tf, done, t);
        todo, done := todo - {t}, done + {t};
        ForgetToken(key, t, tf[t]);
      }
      assert done == tf.Keys;
      RestrictAll(tf);
    }

    method ForgetToken(key: Key, t: Token, n: nat)
      modifies this`stats, this`postings
      ensures stats == DropCount(old(stats), t, n)
      ensures postings == if t in old(stats) then DropPostings(old(postings), key, t) else old(postings)
    {
      if t in stats {
        var less := Stat(stats[t].df - 1, stats[t].totalTf - n);
        stats := if less.df <= 0 then stats - {t} else stats[t := less];
        if t in postings {
          var kept := Without(postings[t], key);
          postings := if kept != [] then postings[t := kept] else postings - {t};
        }
      }
    }

    method RefreshAverage()
      modifies this`averageDocLen
      ensures averageDocLen == Bm25.Average(docs)
    {
      if docs == map[] {
        averageDocLen := 0.0;
        return;
      }
      var total, todo := 0.0, docs.Keys;
      while todo != {}
        invariant todo <= docs.Keys
        invariant total + Sum(todo, Bm25.LenAt(docs)) == Sum(docs.Keys, Bm25.LenAt(docs))
        decreases |todo|
      {
        var k :| k in todo;
        SumSplit(todo, Bm25.LenAt(docs), k);
        total := total + docs[k].len as real;
        todo := todo - {k};
      }
      averageDocLen := total / |docs| as real;
    }

    method Add(r: Record)
      requires Valid()
      modifies this
      ensures Valid() && State() == AddDoc(old(State()), r) && cache == []
    {
      AddConsistent(State(), r);
      cache := [];
      AddOne(r);
      RefreshAverage();
    }

    method Remove(key: Key)
      requires Valid()
      modifies this
      ensures Valid() && State() == RemoveDoc(old(State()), key) && cache == []
    {
      RemoveConsistent(State(), key);
      RemoveInternal(key);
      cache := [];
      RefreshAverage();
    }

    method Clear()
      modifies this
      ensures Valid() && State() == EMPTY && cache == []
    {
      docs, stats, postings := map[], map[], map[];
      averageDocLen := 0.0;
      cache := [];
      EmptyConsistent();
    }

    /** The batch entry point: one cache clear, one average refresh, and the same
        index as adding the records one by one. */
    method IncrementalRefresh(rs: seq<Record>) returns (added: nat)
      requires Valid()
      modifies this
      ensures Valid() && State() == AddAll(old(State()), rs) && added == |rs| && cache == []
    {
      AddAllConsistent(State(), rs);
      cache := [];
      added := 0;
      while added < |rs|
        invariant 0 <= added <= |rs|
        invariant State() == AddAll(old(State()), rs[..added]) && cache == []
      {
        assert rs[..added + 1][..added] == rs[..added];
        AddOne(rs[added]);
        added := added + 1;
      }
      assert rs[..added] == rs;
      RefreshAverage();
    }

    // -- search ----------------------------------------------------------------

    ghost predicate Cached(key: CacheKey)
      reads this`cache
    {
      exists e :: e in cache && e.key == key
    }

    method CacheIndex(key: CacheKey) returns (i: nat)
      ensures i < |cache| ==> cache[i].key == key
      ensures i >= |cache| ==> !Cached(key)
    {
      i := 0;
      while i < |cache|
        invariant i <= |cache| && forall j :: 0 <= j < i ==> cache[j].key != key
      {
        if cache[i].key == key { return; }
        i := i + 1;
      }
    }

    /** A cached answer is the fresh answer to the query that filled the entry; any
        other answer is the fresh answer to this query. */
    method Search(q: Query, limit: int, boost: real) returns (result: seq<Scored>, ghost key: CacheKey)
      requires Searchable()
      modifies this`cache, this`filledWith
      ensures Searchable() && (old(Valid()) ==> Valid())
      ensures key == CacheKey(Unique(q.tokens), limit, boost)
      ensures result ==
              Fresh(key, if old(Cached(key) && key in filledWith) then old(filledWith)[key] else q.exacts)
      ensures docs == map[] || q.tokens == [] ==> result == [] && cache == old(cache) && filledWith == old(filledWith)
      ensures docs != map[] && q.tokens != [] ==>
                && cache == Used(old(cache), Entry(key, result), CACHE_MAX)
                && filledWith == if old(Cached(key)) then old(filledWith) else old(filledWith)[key := q.exacts]
    {
      var unique := UniqueTokens(q.tokens);
      UniqueMeaning(q.tokens);
      var cacheKey := CacheKey(unique, limit, boost);
      key := cacheKey;
      if docs == map[] || q.tokens == [] {
        NothingFound(idf, docs, Bm25.CountsOf(stats), Tokens(unique), boost, limit);
        return [], key;
      }
      var at := CacheIndex(cacheKey);
      if at < |cache| {
        assert cache[at] in cache;
        result := cache[at].value;
        assert cache[at] == Entry(cacheKey, result);
        MoveToEnd(at);
      } else {
        result := Score(unique, q.exacts, limit, boost);
        Remember(cacheKey, result, q.exacts);
      }
    }

    method MoveToEnd(at: nat)
      requires at < |cache| && Coherent()
      modifies this`cache
      ensures Coherent() && cache == Used(old(cache), old(cache)[at], CACHE_MAX)
    {
      MovedToEnd(cache, at, CACHE_MAX);
      UsedApart(cache, cache[at], CACHE_MAX);
      ghost var was := cache;
      assert forall e :: e in Used(was, was[at], CACHE_MAX) ==> e in was;
      cache := cache[..at] + cache[at + 1..] + [cache[at]];
    }

    lemma AbsentKey(key: CacheKey)
      requires !Cached(key)
      ensures Others(cache, key) == cache && forall e :: e in cache ==> e.key != key
    {
      assert forall i :: 0 <= i < |cache| ==> cache[i] in cache;
      NoOthersDropped(cache, key);
    }

    static method EvictOldest(all: seq<CacheEntry>) returns (entries: seq<CacheEntry>)
      ensures entries == Latest(all, CACHE_MAX)
    {
      entries := all;
      while |entries| > CACHE_MAX
        invariant |entries| <= |all| && entries == all[|all| - |entries|..]
        invariant |entries| >= if |all| > CACHE_MAX then CACHE_MAX else |all|
      {
        DropOldest(all, |entries|);
        entries := entries[1..];
      }
    }

    static lemma DropOldest(all: seq<CacheEntry>, n: nat)
      requires 0 < n <= |all|
      ensures all[|all| - n..][1..] == all[|all| - (n - 1)..]
    {
    }

    method Remember(key: CacheKey, result: seq<Scored>, ghost exacts: set<Identifier>)
      requires Coherent() && !Cached(key) && result == Fresh(key, exacts)
      modifies this`cache, this`filledWith
      ensures Coherent() && filledWith == old(filledWith)[key := exacts]
      ensures cache == Used(old(cache), Entry(key, result), CACHE_MAX)
    {
      var entry: CacheEntry := Entry(key, result);
      AbsentKey(key);
      CoheresNew(cache, filledWith, idf, docs, stats, entry, exacts);
      cache := EvictOldest(cache + [entry]);
      filledWith := filledWith[key := exacts];
    }

    /** Score the candidate documents of the posting lists, sort and truncate. */
    method Score(unique: seq<Token>, exacts: set<Identifier>, limit: int, boost: real)
      returns (result: seq<Scored>)
      requires Scorable() && NoDuplicates(unique)
      ensures result == Fresh(CacheKey(unique, limit, boost), exacts)
    {
      ghost var hits := Bm25.HitsBy(idf, docs, Bm25.CountsOf(stats), Bm25.Probe(Tokens(unique), exacts, boost));
      var slots := Candidates(unique);
      var scores: seq<Scored>, todo := [], slots.Keys;
      SlotsMeaning(docs, Tokens(unique));
      Bm25.HitsByMeaning(idf, docs, Bm25.CountsOf(stats), Bm25.Probe(Tokens(unique), exacts, boost));
      while todo != {}
        invariant todo <= slots.Keys
        invariant Collected(scores, hits, todo)
        decreases todo
      {
        var k :| k in todo;
        var s := ScoreDoc(k, slots[k], exacts, boost, Tokens(unique));
        CollectStep(scores, hits, todo, k);
        todo := todo - {k};
        if s > 0.0 {
          scores := scores + [Scored(k, s)];
        }
      }
      SortIsRankingOf(scores, Bm25.Positive(hits));
      result := Take(Sort(scores), limit);
    }

    method ScoreDoc(k: Key, slot: map<Token, nat>, exacts: set<Identifier>, boost: real, ghost tokens: set<Token>)
      returns (s: real)
      requires Scorable()
      requires k in docs && slot == Restrict(docs[k].tf, tokens)
      ensures s == Bm25.ScoreBy(idf, docs, Bm25.CountsOf(stats), k, Bm25.Probe(tokens, exacts, boost))
    {
      s := ScoreOne(k, slot);
      SlotScore(slot, k, Bm25.Probe(tokens, exacts, boost));
      if docs[k].exacts * exacts != {} {
        s := s + boost;
      }
    }

    lemma SlotScore(slot: map<Token, nat>, k: Key, p: Bm25.Probe)
      requires k in docs && slot == Restrict(docs[k].tf, p.tokens)
      ensures Bm25.ScoreBy(idf, docs, Bm25.CountsOf(stats), k, p) ==
              Sum(slot.Keys, Bm25.WeightsBy(idf, docs, Bm25.CountsOf(stats), k))
              + if docs[k].exacts * p.exacts != {} then p.boost else 0.0
    {
      assert slot.Keys == p.tokens * docs[k].tf.Keys;
    }

    /** A token without statistics adds nothing. */
    method ScoreOne(k: Key, slot: map<Token, nat>) returns (s: real)
      requires Scorable()
      requires k in docs && forall t :: t in slot ==> t in docs[k].tf && docs[k].tf[t] == slot[t]
      ensures s == Sum(slot.Keys, Bm25.WeightsBy(idf, docs, Bm25.CountsOf(stats), k))
    {
      ghost var w := Bm25.WeightsBy(idf, docs, Bm25.CountsOf(stats), k);
      s := 0.0;
      var todo := slot.Keys;
      while todo != {}
        invariant todo <= slot.Keys
        invariant s + Sum(todo, w) == Sum(slot.Keys, w)
        decreases |todo|
      {
        var t :| t in todo;
        SumSplit(todo, w, t);
        var weight := WeightOf(k, t, slot[t]);
        s := s + weight;
        todo := todo - {t};
      }
    }

    method WeightOf(k: Key, t: Token, tf: nat) returns (weight: real)
      requires Scorable() && k in docs && t in docs[k].tf && docs[k].tf[t] == tf
      ensures weight == Bm25.WeightsBy(idf, docs, Bm25.CountsOf(stats), k)(t)
    {
      weight := 0.0;
      if t in stats && stats[t].df != 0 {
        weight := Bm25.TermWeight(idf, |docs|, stats[t].df, tf, docs[k].len, averageDocLen);
      }
    }

    /** Union the posting lists of the query tokens. */
    method Candidates(unique: seq<Token>) returns (slots: map<Key, map<Token, nat>>)
      requires Scorable() && NoDuplicates(unique)
      ensures slots == Slots(docs, Tokens(unique))
    {
      slots := map[];
      NoSlots(docs);
      for n := 0 to |unique|
        invariant slots == Slots(docs, Tokens(unique[..n]))
      {
        var t := unique[n];
        assert Tokens(unique[..n + 1]) == Tokens(unique[..n]) + {t};
        assert t !in Tokens(unique[..n]);
        assert PostingsConsistent(docs, postings, t);
        var ps := if t in postings then postings[t] else [];
        slots := Merge(slots, Tokens(unique[..n]), t, ps);
      }
      assert unique[..|unique|] == unique;
    }

    method Merge(before: map<Key, map<Token, nat>>, ghost seen: set<Token>, t: Token, ps: seq<Posting>)
      returns (slots: map<Key, map<Token, nat>>)
      requires Lists(docs, t, ps) && before == Slots(docs, seen) && t !in seen
      ensures slots == Slots(docs, seen + {t})
    {
      slots := before;
      for j := 0 to |ps|
        invariant slots == PartialSlots(docs, seen, t, ps[..j])
      {
        var p := ps[j];
        assert p in ps;
        MergeStep(docs, seen, t, ps, j);
        slots := slots[p.key := Higher(if p.key in slots then slots[p.key] else map[], t, p.tf)];
      }
      MergeDone(docs, seen, t, ps);
    }

    // -- serialisation ---------------------------------------------------------

    method ToDict() returns (p: Payload)
      ensures p == PayloadOf(State(), averageDocLen)
    {
      p := Payload(2, docs, Some(postings), averageDocLen);
    }

    /** `None` is the rejection of an unsupported schema version. */
    static method FromDict(idf: Bm25.Idf, p: Payload) returns (index: BM25Index?)
      ensures index == null <==> p.schemaVersion !in {0, 1, 2}
      ensures index != null ==> fresh(index) && index.idf == idf && index.Coherent()
                                && IsReload(p, index.State()) && index.averageDocLen == Bm25.Average(p.docs)
                                && index.cache == []
    {
      if p.schemaVersion !in {0, 1, 2} { return null; }
      index := new BM25Index(idf);
      index.docs := p.docs;
      if p.inverted.Some? {
        index.postings := NonEmptyLists(p.inverted.value);
      }
      if index.postings == map[] && index.docs != map[] {
        index.RebuildPostings();
      }
      index.RebuildStats();
      index.RefreshAverage();
    }

    /** Rebuild the posting lists from the documents' term frequencies. */
    method RebuildPostings()
      modifies this`postings
      ensures forall t :: PostingsConsistent(Indexed(docs), postings, t)
    {
      postings := map[];
      var todo := docs.Keys;
      ghost var done: map<Key, Doc> := map[];
      forall t ensures PostingsConsistent(done, postings, t) {
        assert Holders(done, t) == {};
      }
      while todo != {}
        invariant todo <= docs.Keys && done == Indexed(docs) - todo
        invariant forall t :: PostingsConsistent(done, postings, t)
        decreases todo
      {
        var k :| k in todo;
        var doc := IndexedDoc(docs[k]);
        ghost var more, next := done[k := doc], AddPostings(postings, k, doc.tf);
        forall t ensures PostingsConsistent(more, next, t) {
          assert PostingsConsistent(done, postings, t);
          PostingsAdded(done, postings, k, doc, t);
        }
        PostTf(k, doc.tf);
        RemainingStep(Indexed(docs), todo, k);
        todo, done := todo - {k}, done[k := doc];
      }
      assert done == Indexed(docs);
    }

    /** Rebuild the statistics from the cached term frequencies or, when a document
        has none, from every document's text field alone. */
    method RebuildStats()
      modifies this`stats
      ensures forall t :: StatConsistent(Counted(docs), stats, t)
    {
      stats := map[];
      var todo := docs.Keys;
      var fallback := exists k :: k in docs && docs[k].tf == map[];
      ghost var done: map<Key, Doc> := map[];
      forall t ensures StatConsistent(done, stats, t) {
        NoHoldersNoTf(done, t);
      }
      while todo != {}
        invariant todo <= docs.Keys && done == Counted(docs) - todo
        invariant forall t :: StatConsistent(done, stats, t)
        decreases todo
      {
        var k :| k in todo;
        var doc := if fallback then TextOnly(docs[k]) else docs[k];
        ghost var more, next := done[k := doc], AddStats(stats, doc.tf);
        forall t ensures StatConsistent(more, next, t) {
          assert StatConsistent(done, stats, t);
          StatAdded(done, stats, k, doc, t);
        }
        CountTf(doc.tf);
        RemainingStep(Counted(docs), todo, k);
        todo, done := todo - {k}, done[k := doc];
      }
      assert done == Counted(docs);
    }
  }

  // -----------------------------------------------------------------------------
  // The disk payload
  // -----------------------------------------------------------------------------

  /** A v1 dump has no inverted index. */
  datatype Payload = Payload(
    schemaVersion: int, docs: map<Key, Doc>, inverted: Option<map<Token, seq<Posting>>>, averageDocLen: real)

  function PayloadOf(ix: Index, average: real): Payload {
    Payload(2, ix.docs, Some(ix.postings), average)
  }

  function V1PayloadOf(ix: Index, average: real): Payload {
    Payload(1, ix.docs, None, average)
  }

  predicate NoEmptyTf(docs: map<Key, Doc>) {
    forall k :: k in docs ==> docs[k].tf != map[]
  }

  function TextOnly(d: Doc): Doc {
    d.(tf := Counter(d.textTokens))
  }

  /** Posting rebuild falls back from term frequencies to tokens to the text. */
  function IndexedDoc(d: Doc): Doc {
    if d.tf != map[] then d
    else if d.tokens != [] then d.(tf := Counter(d.tokens))
    else TextOnly(d)
  }

  function Indexed(docs: map<Key, Doc>): map<Key, Doc> {
    map k | k in docs :: IndexedDoc(docs[k])
  }

  function TextDocs(docs: map<Key, Doc>): map<Key, Doc> {
    map k | k in docs :: TextOnly(docs[k])
  }

  /** Statistics rebuild counts the text alone as soon as one document has no tf. */
  function Counted(docs: map<Key, Doc>): map<Key, Doc> {
    if NoEmptyTf(docs) then docs else TextDocs(docs)
  }

  function NonEmptyLists(lists: map<Token, seq<Posting>>): map<Token, seq<Posting>> {
    map t | t in lists && lists[t] != [] :: lists[t]
  }

  /** What an index restored from `p` holds. */
  ghost predicate IsReload(p: Payload, ix: Index) {
    && ix.docs == p.docs
    && (forall t :: StatConsistent(Counted(p.docs), ix.stats, t))
    && var kept := if p.inverted.Some? then NonEmptyLists(p.inverted.value) else map[];
       if kept == map[] && p.docs != map[]
       then forall t :: PostingsConsistent(Indexed(p.docs), ix.postings, t)
       else ix.postings == kept
  }

  /** What a reload needs: no document without term frequencies, or none with a token
      from another field than its text. */
  predicate Reloadable(docs: map<Key, Doc>) {
    NoEmptyTf(docs) || forall k :: k in docs ==> TextIsAll(docs[k])
  }

  /** Saving and reloading a consistent, reloadable index gives a consistent index over
      the same corpus, from a v2 payload and from a v1 dump alike. */
  lemma ReloadConsistent(ix: Index, p: Payload, loaded: Index)
    requires Consistent(ix) && Reloadable(ix.docs)
    requires exists a :: p == PayloadOf(ix, a) || p == V1PayloadOf(ix, a)
    requires IsReload(p, loaded)
    ensures Consistent(loaded) && loaded.docs == ix.docs && loaded.stats == ix.stats
    ensures p.schemaVersion == 2 ==> loaded == ix
  {
    ReloadableUnchanged(ix.docs);
    StatsDetermined(ix.docs, loaded.stats, ix.stats);
    NoEmptyLists(ix);
    if ix.postings == map[] {
      NoPostings(ix, loaded);
    }
  }

  lemma ReloadableUnchanged(docs: map<Key, Doc>)
    requires DocsConsistent(docs) && Reloadable(docs)
    ensures Counted(docs) == docs && Indexed(docs) == docs
  {
    if !NoEmptyTf(docs) {
      AllTextSameDocs(docs);
    }
    IndexedUnchanged(docs);
  }

  /** A document without term frequencies has no text tokens to post either. */
  lemma IndexedUnchanged(docs: map<Key, Doc>)
    requires DocsConsistent(docs) && (NoEmptyTf(docs) || TextAmongTokens(docs))
    ensures Indexed(docs) == docs
  {
    forall k | k in docs ensures IndexedDoc(docs[k]) == docs[k] {
      var d := docs[k];
      if d.tf == map[] {
        EmptyCounter(d.tokens);
        EmptyCounter(d.textTokens);
        NoTokensNoText(d);
      }
    }
  }

  lemma NoTokensNoText(d: Doc)
    requires d.tokens == [] && multiset(d.textTokens) <= multiset(d.tokens)
    ensures d.textTokens == []
  {
    assert |multiset(d.textTokens)| == |d.textTokens|;
    assert multiset(d.textTokens) == multiset{};
  }

  /** Whatever becomes of the statistics, the posting lists survive any reload. */
  lemma ReloadKeepsPostings(ix: Index, p: Payload, loaded: Index)
    requires Consistent(ix) && (NoEmptyTf(ix.docs) || TextAmongTokens(ix.docs))
    requires exists a :: p == PayloadOf(ix, a) || p == V1PayloadOf(ix, a)
    requires IsReload(p, loaded)
    ensures loaded.docs == ix.docs
    ensures forall t :: PostingsConsistent(ix.docs, loaded.postings, t) && (t in loaded.stats ==> loaded.stats[t].df > 0)
  {
    IndexedUnchanged(ix.docs);
    NoEmptyLists(ix);
    forall t ensures PostingsConsistent(ix.docs, loaded.postings, t) && (t in loaded.stats ==> loaded.stats[t].df > 0) {
      assert StatConsistent(Counted(p.docs), loaded.stats, t);
      assert PostingsConsistent(ix.docs, ix.postings, t);
    }
  }

  /** As a set, the text's tokens are all the document has. */
  predicate TextCovers(d: Doc) {
    Tokens(d.textTokens) == d.tf.Keys
  }

  /** What a reload needs to answer as before: the document frequencies it counts are the
      true ones. */
  predicate Answerable(docs: map<Key, Doc>) {
    NoEmptyTf(docs) || forall k :: k in docs ==> TextCovers(docs[k])
  }

  ghost predicate SameSearch(idf: Bm25.Idf, docs: map<Key, Doc>, p: Bm25.Probe, limit: int) {
    Bm25.SearchBy(idf, docs, Bm25.CountsIn(Counted(docs)), p, limit) == Bm25.Search(idf, docs, p, limit)
  }

  /** With an idf that falls with the document frequency, a reload answers every query as
      before if and only if no document is without term frequencies or the text of every
      document has, as a set, all its tokens. */
  lemma ReloadKeepsAnswers(idf: Bm25.Idf, docs: map<Key, Doc>)
    requires Bm25.PositiveIdf(idf) && Bm25.RarerWeighsMore(idf)
    requires DocsConsistent(docs) && TextAmongTokens(docs)
    ensures (forall p, limit :: SameSearch(idf, docs, p, limit)) <==> Answerable(docs)
  {
    if Answerable(docs) {
      forall p, limit ensures SameSearch(idf, docs, p, limit) {
        AnswerableSameSearch(idf, docs, p, limit);
      }
    } else {
      var k :| k in docs && !TextCovers(docs[k]);
      TextTokensCounted(docs[k]);
      var t :| t in docs[k].tf && t !in docs[k].textTokens;
      UncoveredCount(docs, k, t);
      Bm25.LowCountShows(idf, docs, Bm25.CountsIn(Counted(docs)), k, t);
      assert !SameSearch(idf, docs, Bm25.Single(t), |docs|);
    }
  }

  lemma AnswerableSameSearch(idf: Bm25.Idf, docs: map<Key, Doc>, p: Bm25.Probe, limit: int)
    requires Answerable(docs)
    ensures SameSearch(idf, docs, p, limit)
  {
    forall t ensures Holders(Counted(docs), t) == Holders(docs, t) {
      forall k | k in docs ensures t in Counted(docs)[k].tf <==> t in docs[k].tf {
        if !NoEmptyTf(docs) {
          assert TextCovers(docs[k]);
          assert t in TextOnly(docs[k]).tf <==> t in Tokens(docs[k].textTokens);
        }
      }
    }
    Bm25.SameCountsSameSearch(idf, docs, Bm25.CountsIn(Counted(docs)), Bm25.CountsIn(docs), p, limit);
    Bm25.TrueCounts(idf, docs, p, limit);
  }

  lemma TextTokensCounted(d: Doc)
    requires d.tf == Counter(d.tokens) && multiset(d.textTokens) <= multiset(d.tokens)
    ensures Tokens(d.textTokens) <= d.tf.Keys
  {
    forall t | t in d.textTokens ensures t in d.tf {
      assert multiset(d.textTokens)[t] > 0;
      assert multiset(d.tokens)[t] > 0;
      assert t in d.tokens;
    }
  }

  /** A token the text lacks is counted too low. */
  lemma UncoveredCount(docs: map<Key, Doc>, k: Key, t: Token)
    requires DocsConsistent(docs) && TextAmongTokens(docs) && !NoEmptyTf(docs)
    requires k in docs && t in docs[k].tf && t !in docs[k].textTokens
    ensures k in Holders(docs, t) && |Holders(Counted(docs), t)| < |Holders(docs, t)|
  {
    var low, high := Holders(Counted(docs), t), Holders(docs, t);
    forall j | j in low ensures j in high {
      TextTokensCounted(docs[j]);
    }
    assert k in high && k !in low;
    SubsetSize(low, high - {k});
  }

  lemma EmptyCounter(tokens: seq<Token>)
    ensures Counter(tokens) == map[] <==> tokens == []
  {
    if tokens != [] {
      assert tokens[0] in Counter(tokens);
    }
  }

  lemma NoEmptyLists(ix: Index)
    requires Consistent(ix)
    ensures NonEmptyLists(ix.postings) == ix.postings
  {
    forall t | t in ix.postings ensures ix.postings[t] != [] {
      assert PostingsConsistent(ix.docs, ix.postings, t);
    }
  }

  /** A corpus without postings has none to rebuild. */
  lemma NoPostings(ix: Index, loaded: Index)
    requires Consistent(ix) && ix.postings == map[]
    requires loaded.postings == map[] || forall t :: PostingsConsistent(ix.docs, loaded.postings, t)
    ensures loaded.postings == map[]
  {
    forall t ensures t !in loaded.postings {
      assert PostingsConsistent(ix.docs, ix.postings, t);
      HoldersListed(ix.docs, t, PostingsOf(ix.postings, t));
      if loaded.postings != map[] {
        assert PostingsConsistent(ix.docs, loaded.postings, t);
        HoldersListed(ix.docs, t, PostingsOf(loaded.postings, t));
      }
    }
    assert loaded.postings.Keys == {};
  }

  lemma HoldersListed(docs: map<Key, Doc>, t: Token, ps: seq<Posting>)
    requires Lists(docs, t, ps)
    ensures ps == [] <==> Holders(docs, t) == {}
  {
    assert forall k :: k in Holders(docs, t) ==> Posting(k, docs[k].tf[t]) in ps;
    if ps != [] {
      assert ps[0] in ps;
    }
  }

  /** The document builder emits the text field's tokens among the others. */
  ghost predicate TextAmongTokens(docs: map<Key, Doc>) {
    forall k :: k in docs ==> multiset(docs[k].textTokens) <= multiset(docs[k].tokens)
  }

  /** No field but the text contributes a token. */
  predicate TextIsAll(d: Doc) {
    multiset(d.textTokens) == multiset(d.tokens)
  }

  /** The reload restores the statistics exactly when no document is without term
      frequencies or no document has a token from another field than its text. */
  lemma ReloadKeepsStatistics(ix: Index, p: Payload, loaded: Index)
    requires Consistent(ix) && TextAmongTokens(ix.docs)
    requires exists a :: p == PayloadOf(ix, a) || p == V1PayloadOf(ix, a)
    requires IsReload(p, loaded)
    ensures loaded.stats == ix.stats <==> Reloadable(ix.docs)
    ensures Consistent(loaded) <==> Reloadable(ix.docs)
  {
    if Reloadable(ix.docs) {
      ReloadConsistent(ix, p, loaded);
    } else {
      if Consistent(loaded) {
        StatsDetermined(ix.docs, loaded.stats, ix.stats);
      }
      if loaded.stats == ix.stats {
        forall t ensures TotalTf(TextDocs(ix.docs), t) == TotalTf(ix.docs, t) {
          assert StatConsistent(ix.docs, ix.stats, t) && StatConsistent(Counted(ix.docs), loaded.stats, t);
        }
        SameTotalsSameText(ix.docs);
      }
    }
  }

  lemma CounterOfMultiset(a: seq<Token>, b: seq<Token>)
    ensures multiset(a) == multiset(b) <==> Counter(a) == Counter(b)
  {
    if Counter(a) == Counter(b) {
      forall t ensures multiset(a)[t] == multiset(b)[t] {
        assert t in a <==> t in Counter(a);
        assert t in b <==> t in Counter(b);
      }
    }
    if multiset(a) == multiset(b) {
      forall t ensures t in Counter(a) <==> t in Counter(b) {
        assert t in a <==> t in multiset(a);
        assert t in b <==> t in multiset(b);
      }
      MapsEqual(Counter(a), Counter(b));
    }
  }

  lemma AllTextSameDocs(docs: map<Key, Doc>)
    requires DocsConsistent(docs) && forall k :: k in docs ==> TextIsAll(docs[k])
    ensures TextDocs(docs) == docs
  {
    forall k | k in docs ensures TextOnly(docs[k]) == docs[k] {
      CounterOfMultiset(docs[k].textTokens, docs[k].tokens);
    }
  }

  lemma SameTotalsSameText(docs: map<Key, Doc>)
    requires DocsConsistent(docs) && TextAmongTokens(docs)
    requires forall t :: TotalTf(TextDocs(docs), t) == TotalTf(docs, t)
    ensures forall k :: k in docs ==> TextIsAll(docs[k])
  {
    forall k | k in docs ensures TextIsAll(docs[k]) {
      forall t ensures multiset(docs[k].textTokens)[t] == multiset(docs[k].tokens)[t] {
        SameTotalSameCount(docs, k, t);
      }
    }
  }

  lemma SameTotalSameCount(docs: map<Key, Doc>, k: Key, t: Token)
    requires DocsConsistent(docs) && TextAmongTokens(docs) && k in docs
    requires TotalTf(TextDocs(docs), t) == TotalTf(docs, t)
    ensures multiset(docs[k].textTokens)[t] == multiset(docs[k].tokens)[t]
  {
    forall j | j in docs.Keys ensures TfAt(TextDocs(docs), t)(j) <= TfAt(docs, t)(j) {
      CountsAt(docs, j, t);
      assert multiset(docs[j].textTokens) <= multiset(docs[j].tokens);
    }
    assert TextDocs(docs).Keys == docs.Keys;
    SumTermwise(docs.Keys, TfAt(TextDocs(docs), t), TfAt(docs, t));
    CountsAt(docs, k, t);
  }

  lemma CountsAt(docs: map<Key, Doc>, k: Key, t: Token)
    requires k in docs && DocsConsistent(docs)
    ensures TfAt(TextDocs(docs), t)(k) == multiset(docs[k].textTokens)[t] as real
    ensures TfAt(docs, t)(k) == multiset(docs[k].tokens)[t] as real
  {
    assert t in docs[k].tokens <==> t in multiset(docs[k].tokens);
    assert t in docs[k].textTokens <==> t in multiset(docs[k].textTokens);
  }

  const TAGGED := Record("a", ["tag"], {}, [])
  const BLANK := Record("b", [], {}, [])

  /** For instance: a record whose only token comes from its tags, next to a record
      without tokens, loses its statistics on reload. */
  lemma ReloadLosesStatistics(loaded: Index, average: real)
    requires IsReload(PayloadOf(AddDoc(AddDoc(EMPTY, TAGGED), BLANK), average), loaded)
    ensures "tag" in AddDoc(AddDoc(EMPTY, TAGGED), BLANK).stats && loaded.stats == map[]
  {
    var ix := AddDoc(AddDoc(EMPTY, TAGGED), BLANK);
    assert "b" in ix.docs && ix.docs["b"] == DocOf(BLANK);
    assert DocOf(BLANK).tf == map[] by {
      assert DocOf(BLANK).tf.Keys == {};
    }
    forall k | k in ix.docs ensures ix.docs[k].textTokens == [] {
      assert k == "a" || k == "b";
    }
    NoTextNoStatistics(ix.docs, loaded.stats);
    assert "tag" in DocOf(TAGGED).tf by { assert TAGGED.tokens[0] == "tag"; }
    assert "tag" in AddDoc(EMPTY, TAGGED).stats;
  }

  lemma NoTextNoStatistics(docs: map<Key, Doc>, stats: map<Token, Stat>)
    requires !NoEmptyTf(docs) && forall k :: k in docs ==> docs[k].textTokens == []
    requires forall t :: StatConsistent(Counted(docs), stats, t)
    ensures stats == map[]
  {
    forall t ensures t !in stats {
      assert StatConsistent(Counted(docs), stats, t);
      forall k | k in docs ensures t !in TextOnly(docs[k]).tf {}
      assert Holders(Counted(docs), t) == {};
    }
    assert stats.Keys == {};
  }

  /** A service restart: save, then load what was saved. */
  method Restart(before: BM25Index) returns (restored: BM25Index)
    requires before.Valid() && Reloadable(before.docs)
    ensures restored.Valid() && fresh(restored)
    ensures restored.State() == before.State() && restored.idf == before.idf && restored.cache == []
  {
    var p := before.ToDict();
    var index := BM25Index.FromDict(before.idf, p);
    restored := index;
    ReloadConsistent(before.State(), p, restored.State());
  }

  /** A restart from any dump of a consistent index, v1 or v2: the corpus and its postings
      survive, and so does the rest when the index is reloadable. */
  method Reload(ghost saved: Index, ghost average: real, idf: Bm25.Idf, p: Payload) returns (restored: BM25Index)
    requires Consistent(saved) && (NoEmptyTf(saved.docs) || TextAmongTokens(saved.docs))
    requires p == PayloadOf(saved, average) || p == V1PayloadOf(saved, average)
    ensures fresh(restored) && restored.Searchable() && restored.idf == idf && restored.cache == []
    ensures restored.docs == saved.docs && IsReload(p, restored.State())
    ensures Reloadable(saved.docs) ==> restored.Valid() && restored.stats == saved.stats
  {
    var index := BM25Index.FromDict(idf, p);
    restored := index;
    ReloadKeepsPostings(saved, p, restored.State());
    if Reloadable(saved.docs) {
      ReloadConsistent(saved, p, restored.State());
    }
  }

  /** The first answer after a restart, for every query, from either dump: the saved corpus
      scored with the recounted frequencies and the query's own exact identifiers -- which
      is the scan of the saved corpus when the reload keeps answers. */
  method ReloadAndSearch(ghost saved: Index, ghost average: real, idf: Bm25.Idf, p: Payload,
                         q: Query, limit: int, boost: real) returns (result: seq<Scored>)
    requires Consistent(saved) && (NoEmptyTf(saved.docs) || TextAmongTokens(saved.docs))
    requires p == PayloadOf(saved, average) || p == V1PayloadOf(saved, average)
    ensures result == Bm25.SearchBy(idf, saved.docs, Bm25.CountsIn(Counted(saved.docs)),
                                    Bm25.Probe(Tokens(q.tokens), q.exacts, boost), limit)
    ensures Answerable(saved.docs) ==>
              result == Bm25.Search(idf, saved.docs, Bm25.Probe(Tokens(q.tokens), q.exacts, boost), limit)
  {
    var restored := Reload(saved, average, idf, p);
    ghost var probe := Bm25.Probe(Tokens(q.tokens), q.exacts, boost);
    UniqueMeaning(q.tokens);
    CountsAgree(Counted(saved.docs), restored.stats);
    ghost var key;
    result, key := restored.Search(q, limit, boost);
    Bm25.SameCountsSameSearch(idf, saved.docs, Bm25.CountsOf(restored.stats), Bm25.CountsIn(Counted(saved.docs)), probe, limit);
    if Answerable(saved.docs) {
      AnswerableSameSearch(idf, saved.docs, probe, limit);
    }
  }

  /** On an index nobody has searched yet, two queries with the same tokens: the second
      is answered for the first one's exact identifiers, whatever its own. */
  method SearchTwice(index: BM25Index, first: Query, second: Query, limit: int, boost: real)
    returns (a: seq<Scored>, b: seq<Scored>)
    requires index.Valid() && index.cache == [] && Unique(first.tokens) == Unique(second.tokens)
    modifies index
    ensures index.State() == old(index.State())
    ensures a == b ==
            Bm25.Search(index.idf, index.docs, Bm25.Probe(Tokens(first.tokens), first.exacts, boost), limit)
  {
    UniqueMeaning(first.tokens);
    UniqueMeaning(second.tokens);
    SameTokens(first.tokens, second.tokens);
    index.ValidSearchable();
    index.FreshIsScan(CacheKey(Unique(first.tokens), limit, boost), first.exacts);
    a := FillEntry(index, first, limit, boost);
    ghost var key;
    b, key := index.Search(second, limit, boost);
  }

  lemma SameTokens(a: seq<Token>, b: seq<Token>)
    requires Tokens(a) == Tokens(b)
    ensures a == [] <==> b == []
  {
    assert a != [] ==> a[0] in Tokens(a);
    assert b != [] ==> b[0] in Tokens(b);
  }

  /** The first search on an empty cache answers for its own query and fills its entry. */
  method FillEntry(index: BM25Index, q: Query, limit: int, boost: real) returns (result: seq<Scored>)
    requires index.Searchable() && index.cache == []
    modifies index
    ensures index.Searchable() && index.State() == old(index.State())
    ensures var key := CacheKey(Unique(q.tokens), limit, boost);
            && result == index.Fresh(key, q.exacts)
            && (index.docs == map[] || q.tokens == [] ==> result == [])
            && (index.docs != map[] && q.tokens != [] ==>
                  index.Cached(key) && key in index.filledWith && index.filledWith[key] == q.exacts)
  {
    ghost var key;
    result, key := index.Search(q, limit, boost);
    assert index.docs != map[] && q.tokens != [] ==> index.cache[0] == Entry(key, result) && index.cache[0] in index.cache;
  }

  /** Two searches on a new index of one record. */
  method IndexAndSearchTwice(idf: Bm25.Idf, r: Record, first: Query, second: Query, limit: int, boost: real)
    returns (served: seq<Scored>)
    requires Unique(first.tokens) == Unique(second.tokens)
    ensures served ==
            Bm25.Search(idf, AddDoc(EMPTY, r).docs, Bm25.Probe(Tokens(first.tokens), first.exacts, boost), limit)
  {
    var index := new BM25Index(idf);
    index.Add(r);
    var a;
    a, served := SearchTwice(index, first, second, limit, boost);
  }

  /** The queries FooBar and then foobar on a one-document index: the second is served
      the boost that only the first deserves. */
  method FooBarThenFoobar(idf: Bm25.Idf) returns (served: seq<Scored>)
    requires Bm25.PositiveIdf(idf)
    ensures served != Bm25.Search(idf, Bm25.FooBarDocs(), Bm25.Probe({"foobar"}, {}, 1.0), 10)
  {
    var exact, lower := Query(["foobar"], {"FooBar"}), Query(["foobar"], {});
    served := IndexAndSearchTwice(idf, Bm25.FOOBAR, exact, lower, 10, 1.0);
    FooBarToken(exact.tokens);
    Bm25.CaseDecidesBoost(idf);
  }

  lemma FooBarToken(tokens: seq<Token>)
    requires tokens == ["foobar"]
    ensures Tokens(tokens) == {"foobar"}
  {
    assert tokens[0] == "foobar";
  }

  lemma RemainingStep(all: map<Key, Doc>, todo: set<Key>, k: Key)
    requires k in todo && k in all
    ensures k !in all - todo
    ensures all - (todo - {k}) == (all - todo)[k := all[k]]
  {
  }

  /** On a repeated posting the higher term frequency wins. */
  function Higher(slot: map<Token, nat>, t: Token, tf: nat): map<Token, nat> {
    if t in slot && slot[t] >= tf then slot else slot[t := tf]
  }

  // -----------------------------------------------------------------------------
  // Loop steps
  // -----------------------------------------------------------------------------

  lemma NothingFound(idf: Bm25.Idf, docs: map<Key, Doc>, df: Bm25.Counts, tokens: set<Token>, boost: real, limit: int)
    requires docs == map[] || tokens == {}
    ensures forall e :: Bm25.SearchBy(idf, docs, df, Bm25.Probe(tokens, e, boost), limit) == []
  {
    forall e ensures Bm25.SearchBy(idf, docs, df, Bm25.Probe(tokens, e, boost), limit) == [] {
      var hits := Bm25.Positive(Bm25.HitsBy(idf, docs, df, Bm25.Probe(tokens, e, boost)));
      RankingSize(RankingOf(hits), hits);
      assert hits == map[];
    }
  }

  lemma CountsAgree(docs: map<Key, Doc>, stats: map<Token, Stat>)
    requires forall t :: StatConsistent(docs, stats, t)
    ensures forall t :: Bm25.CountsOf(stats)(t) == Bm25.CountsIn(docs)(t)
  {
    forall t ensures Bm25.CountsOf(stats)(t) == Bm25.CountsIn(docs)(t) {
      assert StatConsistent(docs, stats, t);
    }
  }

  lemma NothingAdded(postings: map<Token, seq<Posting>>, key: Key, tf: map<Token, nat>)
    ensures AddPostings(postings, key, Restrict(tf, {})) == postings
  {
    var a := AddPostings(postings, key, Restrict(tf, {}));
    forall t | t in a ensures a[t] == postings[t] {
      assert a[t] == postings[t] + [];
    }
    MapsEqual(a, postings);
  }

  lemma NothingRemoved(stats: map<Token, Stat>, postings: map<Token, seq<Posting>>, key: Key, tf: map<Token, nat>)
    ensures RemoveStats(stats, Restrict(tf, {})) == stats
    ensures RemovePostings(postings, stats, key, Restrict(tf, {})) == postings
  {
  }

  lemma CountStep(stats: map<Token, Stat>, tf: map<Token, nat>, done: set<Token>, t: Token)
    requires t in tf && t !in done
    ensures var s := AddStats(stats, Restrict(tf, done));
            AddStats(stats, Restrict(tf, done + {t})) ==
            s[t := Stat(StatOf(s, t).df + 1, StatOf(s, t).totalTf + tf[t])]
  {
  }

  lemma PostStep(postings: map<Token, seq<Posting>>, key: Key, tf: map<Token, nat>, done: set<Token>, t: Token)
    requires t in tf && t !in done
    ensures var s := AddPostings(postings, key, Restrict(tf, done));
            AddPostings(postings, key, Restrict(tf, done + {t})) ==
            s[t := PostingsOf(s, t) + [Posting(key, tf[t])]]
  {
    var a := AddPostings(postings, key, Restrict(tf, done + {t}));
    var s := AddPostings(postings, key, Restrict(tf, done));
    assert PostingsOf(s, t) == PostingsOf(postings, t);
    MapsEqual(a, s[t := PostingsOf(s, t) + [Posting(key, tf[t])]]);
  }

  /** One token's statistics after a document holding it `n` times goes. */
  function DropCount(stats: map<Token, Stat>, t: Token, n: nat): map<Token, Stat> {
    if t !in stats then stats
    else if stats[t].df - 1 <= 0 then stats - {t}
    else stats[t := Stat(stats[t].df - 1, stats[t].totalTf - n)]
  }

  function DropPostings(postings: map<Token, seq<Posting>>, key: Key, t: Token): map<Token, seq<Posting>> {
    if t !in postings then postings
    else if Without(postings[t], key) == [] then postings - {t}
    else postings[t := Without(postings[t], key)]
  }

  lemma UncountStep(stats: map<Token, Stat>, tf: map<Token, nat>, done: set<Token>, t: Token)
    requires t in tf && t !in done
    ensures t in RemoveStats(stats, Restrict(tf, done)) <==> t in stats
    ensures RemoveStats(stats, Restrict(tf, done + {t})) ==
            DropCount(RemoveStats(stats, Restrict(tf, done)), t, tf[t])
  {
  }

  lemma UnpostStep(postings: map<Token, seq<Posting>>, stats: map<Token, Stat>, key: Key,
                   tf: map<Token, nat>, done: set<Token>, t: Token)
    requires t in tf && t !in done
    ensures var s := RemovePostings(postings, stats, key, Restrict(tf, done));
            RemovePostings(postings, stats, key, Restrict(tf, done + {t})) ==
            if t in stats then DropPostings(s, key, t) else s
  {
    var s := RemovePostings(postings, stats, key, Restrict(tf, done));
    var a := RemovePostings(postings, stats, key, Restrict(tf, done + {t}));
    var d := if t in stats then DropPostings(s, key, t) else s;
    UnpostOther(postings, stats, key, tf, done, t);
    assert t in s <==> t in postings;
    assert t in s ==> s[t] == postings[t];
    assert forall u :: u != t ==> (u in d <==> u in s) && (u in s ==> d[u] == s[u]);
    MapsEqual(a, d);
  }

  lemma UnpostOther(postings: map<Token, seq<Posting>>, stats: map<Token, Stat>, key: Key,
                    tf: map<Token, nat>, done: set<Token>, t: Token)
    ensures var s := RemovePostings(postings, stats, key, Restrict(tf, done));
            var a := RemovePostings(postings, stats, key, Restrict(tf, done + {t}));
            forall u :: u != t ==> (u in a <==> u in s) && (u in a ==> a[u] == s[u])
  {
  }

  /** Slots once the first postings of token `t` are merged into those of `seen`. */
  ghost function PartialSlots(docs: map<Key, Doc>, seen: set<Token>, t: Token, ps: seq<Posting>)
    : map<Key, map<Token, nat>>
  {
    map k | k in docs && (k in Bm25.Matching(docs, seen) || k in PostedKeys(ps)) ::
      Restrict(docs[k].tf, if k in PostedKeys(ps) then seen + {t} else seen)
  }

  ghost function PostedKeys(ps: seq<Posting>): set<Key> {
    set i | 0 <= i < |ps| :: ps[i].key
  }

  lemma SlotsMeaning(docs: map<Key, Doc>, tokens: set<Token>)
    ensures Slots(docs, tokens).Keys == Bm25.Matching(docs, tokens)
    ensures forall k :: k in Slots(docs, tokens) ==> Slots(docs, tokens)[k] == Restrict(docs[k].tf, tokens)
  {
    assert forall k :: k in Slots(docs, tokens) <==> k in Bm25.Matching(docs, tokens);
  }

  /** The positive hits outside `todo` are listed, once each. */
  ghost predicate Collected(scores: seq<Scored>, hits: map<Key, real>, todo: set<Key>) {
    && NoDuplicates(scores)
    && (forall x :: x in scores <==>
          x.key in hits && x.key !in todo && x.score > 0.0 && hits[x.key] == x.score)
  }

  lemma CollectStep(scores: seq<Scored>, hits: map<Key, real>, todo: set<Key>, k: Key)
    requires Collected(scores, hits, todo) && k in todo && k in hits
    ensures hits[k] > 0.0 ==> Collected(scores + [Scored(k, hits[k])], hits, todo - {k})
    ensures hits[k] <= 0.0 ==> Collected(scores, hits, todo - {k})
  {
    if hits[k] > 0.0 {
      var x := Scored(k, hits[k]);
      assert x !in scores;
      assert forall y :: y in scores + [x] <==> y in scores || y == x;
    }
  }

  lemma NoSlots(docs: map<Key, Doc>)
    ensures Slots(docs, Tokens([])) == map[]
  {
  }

  lemma MergeStep(docs: map<Key, Doc>, seen: set<Token>, t: Token, ps: seq<Posting>, j: nat)
    requires Lists(docs, t, ps) && t !in seen && j < |ps|
    ensures var s, k := PartialSlots(docs, seen, t, ps[..j]), ps[j].key;
            && (k in s ==> t !in s[k])
            && PartialSlots(docs, seen, t, ps[..j + 1]) ==
               s[k := (if k in s then s[k] else map[])[t := ps[j].tf]]
  {
    var s, k := PartialSlots(docs, seen, t, ps[..j]), ps[j].key;
    var a := PartialSlots(docs, seen, t, ps[..j + 1]);
    assert ps[j] in ps;
    assert PostedKeys(ps[..j + 1]) == PostedKeys(ps[..j]) + {k};
    assert k !in PostedKeys(ps[..j]);
    assert k in docs && t in docs[k].tf && docs[k].tf[t] == ps[j].tf;
    assert a[k] == Restrict(docs[k].tf, seen + {t});
    assert Restrict(docs[k].tf, seen + {t}) == Restrict(docs[k].tf, seen)[t := ps[j].tf];
    assert k !in s ==> Restrict(docs[k].tf, seen) == map[] by {
      if k !in s { assert k !in Bm25.Matching(docs, seen); }
    }
    MapsEqual(a, s[k := (if k in s then s[k] else map[])[t := ps[j].tf]]);
  }

  lemma MergeDone(docs: map<Key, Doc>, seen: set<Token>, t: Token, ps: seq<Posting>)
    requires Lists(docs, t, ps)
    ensures PartialSlots(docs, seen, t, ps[..|ps|]) == Slots(docs, seen + {t})
  {
    assert ps[..|ps|] == ps;
    forall k ensures k in PostedKeys(ps) <==> k in Holders(docs, t) {
      if k in Holders(docs, t) { assert Posting(k, docs[k].tf[t]) in ps; }
      if k in PostedKeys(ps) {
        var i :| 0 <= i < |ps| && ps[i].key == k;
        assert ps[i] in ps;
      }
    }
    var a, b := PartialSlots(docs, seen, t, ps), Slots(docs, seen + {t});
    forall k ensures k in a <==> k in b ensures k in a && k in b ==> a[k] == b[k] {
      if k in docs {
        MatchingOneMore(docs, seen, t, k);
        if k !in Holders(docs, t) {
          assert Restrict(docs[k].tf, seen) == Restrict(docs[k].tf, seen + {t});
        }
      }
    }
    MapsEqual(a, b);
  }

  lemma MatchingOneMore(docs: map<Key, Doc>, seen: set<Token>, t: Token, k: Key)
    ensures k in Bm25.Matching(docs, seen + {t}) <==> k in Bm25.Matching(docs, seen) || k in Holders(docs, t)
  {
    if k in docs {
      var own := docs[k].tf.Keys;
      assert (seen + {t}) * own == seen * own + {t} * own;
      assert t in own <==> {t} * own != {} by { assert t in own ==> t in {t} * own; }
      assert seen * own != {} ==> (seen + {t}) * own != {} by {
        if u :| u in seen * own { assert u in (seen + {t}) * own; }
      }
    }
  }
}
