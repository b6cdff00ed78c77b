/** What the BM25 index means: the plain corpus, the statistics and posting lists
    that speed it up, and the naive scan that a search has to agree with. */
module Lexical {
  import opened Ordering
  import opened Sums

  type Token = string
  type Identifier = string

  /** A memory record as the tokeniser sees it: the weighted token list of all its
      fields, its exact identifiers, and the tokens of its text field alone. */
  datatype Record = Record(key: Key, tokens: seq<Token>, exacts: set<Identifier>, textTokens: seq<Token>)

  datatype Doc = Doc(
    tokens: seq<Token>, tf: map<Token, nat>, len: nat, exacts: set<Identifier>, textTokens: seq<Token>)

  datatype Stat = Stat(df: int, totalTf: int)
  datatype Posting = Posting(key: Key, tf: nat)

  datatype Index = Index(
    docs: map<Key, Doc>, stats: map<Token, Stat>, postings: map<Token, seq<Posting>>)

  const EMPTY := Index(map[], map[], map[])

  function Counter(tokens: seq<Token>): (tf: map<Token, nat>)
    ensures forall t :: t in tf ==> tf[t] > 0
  {
    map t | t in tokens :: multiset(tokens)[t]
  }

  function DocOf(r: Record): Doc {
    Doc(r.tokens, Counter(r.tokens), |r.tokens|, r.exacts, r.textTokens)
  }

  // ---------------------------------------------------------------------------
  // Updates
  // ---------------------------------------------------------------------------

  function StatOf(stats: map<Token, Stat>, t: Token): Stat {
    if t in stats then stats[t] else Stat(0, 0)
  }

  function AddStats(stats: map<Token, Stat>, tf: map<Token, nat>): map<Token, Stat> {
    map t | t in stats.Keys + tf.Keys ::
      if t in tf then Stat(StatOf(stats, t).df + 1, StatOf(stats, t).totalTf + tf[t]) else stats[t]
  }

  function RemoveStats(stats: map<Token, Stat>, tf: map<Token, nat>): map<Token, Stat> {
    map t | t in stats && !(t in tf && stats[t].df - 1 <= 0) ::
      if t in tf then Stat(stats[t].df - 1, stats[t].totalTf - tf[t]) else stats[t]
  }

  function PostingsOf(postings: map<Token, seq<Posting>>, t: Token): seq<Posting> {
    if t in postings then postings[t] else []
  }

  function AddPostings(postings: map<Token, seq<Posting>>, key: Key, tf: map<Token, nat>)
    : map<Token, seq<Posting>>
  {
    map t | t in postings.Keys + tf.Keys ::
      PostingsOf(postings, t) + if t in tf then [Posting(key, tf[t])] else []
  }

  function Without(ps: seq<Posting>, key: Key): (r: seq<Posting>)
    ensures forall p :: p in r <==> p in ps && p.key != key
  {
    if ps == [] then [] else
      assert ps == [ps[0]] + ps[1..];
      (if ps[0].key != key then [ps[0]] else []) + Without(ps[1..], key)
  }

  /** The code skips the posting list of a token it holds no statistics for. */
  function RemovePostings(
    postings: map<Token, seq<Posting>>, stats: map<Token, Stat>, key: Key, tf: map<Token, nat>)
    : map<Token, seq<Posting>>
  {
    map t | t in postings && !(t in tf && t in stats && Without(postings[t], key) == []) ::
      if t in tf && t in stats then Without(postings[t], key) else postings[t]
  }

  function RemoveDoc(ix: Index, key: Key): Index {
    if key !in ix.docs then ix else
      var tf := Counter(ix.docs[key].tokens);
      Index(ix.docs - {key}, RemoveStats(ix.stats, tf), RemovePostings(ix.postings, ix.stats, key, tf))
  }

  function AddDoc(ix: Index, r: Record): Index {
    var base := RemoveDoc(ix, r.key);
    var doc := DocOf(r);
    Index(base.docs[r.key := doc], AddStats(base.stats, doc.tf), AddPostings(base.postings, r.key, doc.tf))
  }

  function AddAll(ix: Index, rs: seq<Record>): Index {
    if rs == [] then ix else AddDoc(AddAll(ix, rs[..|rs| - 1]), rs[|rs| - 1])
  }

  // ---------------------------------------------------------------------------
  // Consistency with the plain corpus
  // ---------------------------------------------------------------------------

  ghost function Holders(docs: map<Key, Doc>, t: Token): set<Key> {
    set k | k in docs && t in docs[k].tf
  }

  ghost function TfAt(docs: map<Key, Doc>, t: Token): Key -> real {
    k => if k in docs && t in docs[k].tf then docs[k].tf[t] as real else 0.0
  }

  ghost function TotalTf(docs: map<Key, Doc>, t: Token): real {
    Sum(docs.Keys, TfAt(docs, t))
  }

  ghost predicate DocsConsistent(docs: map<Key, Doc>) {
    forall k :: k in docs ==> docs[k].tf == Counter(docs[k].tokens) && docs[k].len == |docs[k].tokens|
  }

  /** df is the number of documents holding the token, total_tf their summed term
      frequency, and a token no document holds has no entry. */
  ghost predicate StatConsistent(docs: map<Key, Doc>, stats: map<Token, Stat>, t: Token) {
    && StatOf(stats, t).df == |Holders(docs, t)|
    && StatOf(stats, t).totalTf as real == TotalTf(docs, t)
    && (t in stats ==> stats[t].df > 0)
  }

  /** `ps` names every holder of the token exactly once, with its term frequency. */
  ghost predicate Lists(docs: map<Key, Doc>, t: Token, ps: seq<Posting>) {
    && (forall i, j :: 0 <= i < j < |ps| ==> ps[i].key != ps[j].key)
    && (forall p :: p in ps ==> p.key in Holders(docs, t) && p.tf == docs[p.key].tf[t])
    && (forall k :: k in Holders(docs, t) ==> Posting(k, docs[k].tf[t]) in ps)
  }

  ghost predicate PostingsConsistent(docs: map<Key, Doc>, postings: map<Token, seq<Posting>>, t: Token) {
    Lists(docs, t, PostingsOf(postings, t)) && (t in postings ==> postings[t] != [])
  }

  ghost predicate Consistent(ix: Index) {
    && DocsConsistent(ix.docs)
    && (forall t :: StatConsistent(ix.docs, ix.stats, t))
    && (forall t :: PostingsConsistent(ix.docs, ix.postings, t))
  }

  lemma {:induction false} NewDocTotals(docs: map<Key, Doc>, key: Key, doc: Doc, t: Token)
    requires key !in docs
    ensures Holders(docs[key := doc], t) == Holders(docs, t) + (if t in doc.tf then {key} else {})
    ensures TotalTf(docs[key := doc], t) == TotalTf(docs, t) + if t in doc.tf then doc.tf[t] as real else 0.0
  {
    var more := docs[key := doc];
    SumSplit(more.Keys, TfAt(more, t), key);
    assert more.Keys - {key} == docs.Keys;
    SumCongruent(docs.Keys, TfAt(more, t), TfAt(docs, t));
  }

  lemma OldDocTotals(docs: map<Key, Doc>, key: Key, t: Token)
    requires key in docs
    ensures Holders(docs - {key}, t) == Holders(docs, t) - {key}
    ensures TotalTf(docs - {key}, t) ==
            TotalTf(docs, t) - if t in docs[key].tf then docs[key].tf[t] as real else 0.0
  {
    NewDocTotals(docs - {key}, key, docs[key], t);
    assert (docs - {key})[key := docs[key]] == docs;
  }

  lemma {:induction false} WithoutKeepsOrder(ps: seq<Posting>, key: Key)
    requires forall i, j :: 0 <= i < j < |ps| ==> ps[i].key != ps[j].key
    ensures forall i, j :: 0 <= i < j < |Without(ps, key)| ==> Without(ps, key)[i].key != Without(ps, key)[j].key
  {
    if ps != [] {
      WithoutKeepsOrder(ps[1..], key);
      var rest := Without(ps[1..], key);
      forall p | p in rest ensures p.key != ps[0].key {
        assert p in ps[1..];
      }
    }
  }

  lemma {:induction false} WithoutAbsent(ps: seq<Posting>, key: Key)
    requires forall p :: p in ps ==> p.key != key
    ensures Without(ps, key) == ps
  {
    if ps != [] {
      assert ps[0] in ps;
      WithoutAbsent(ps[1..], key);
    }
  }

  lemma ListsWithout(docs: map<Key, Doc>, t: Token, ps: seq<Posting>, key: Key)
    requires Lists(docs, t, ps)
    ensures Lists(docs - {key}, t, Without(ps, key))
  {
    WithoutKeepsOrder(ps, key);
  }

  lemma ListsAppended(docs: map<Key, Doc>, t: Token, ps: seq<Posting>, key: Key, doc: Doc)
    requires Lists(docs, t, ps) && key !in docs
    ensures Lists(docs[key := doc], t, ps + if t in doc.tf then [Posting(key, doc.tf[t])] else [])
  {
    var more := docs[key := doc];
    var out := ps + if t in doc.tf then [Posting(key, doc.tf[t])] else [];
    forall i | 0 <= i < |ps| ensures ps[i].key in docs {
      assert ps[i] in ps;
    }
    forall k | k in Holders(more, t) ensures Posting(k, more[k].tf[t]) in out {
      if k == key {
        assert out[|ps|] == Posting(k, more[k].tf[t]);
      } else {
        assert k in Holders(docs, t) && Posting(k, docs[k].tf[t]) in ps;
      }
    }
  }

  lemma StatOfRemoved(stats: map<Token, Stat>, tf: map<Token, nat>, t: Token)
    requires t in stats ==> stats[t].df > 0
    ensures t in RemoveStats(stats, tf) ==> RemoveStats(stats, tf)[t].df > 0
    ensures t !in tf ==> StatOf(RemoveStats(stats, tf), t) == StatOf(stats, t)
    ensures t in tf && StatOf(stats, t).df == 1 ==> StatOf(RemoveStats(stats, tf), t) == Stat(0, 0)
    ensures t in tf && StatOf(stats, t).df > 1 ==>
              StatOf(RemoveStats(stats, tf), t) == Stat(StatOf(stats, t).df - 1, StatOf(stats, t).totalTf - tf[t])
  {
  }

  lemma StatOfAdded(stats: map<Token, Stat>, tf: map<Token, nat>, t: Token)
    requires t in stats ==> stats[t].df > 0
    ensures t in AddStats(stats, tf) ==> AddStats(stats, tf)[t].df > 0
    ensures StatOf(AddStats(stats, tf), t) ==
            if t in tf then Stat(StatOf(stats, t).df + 1, StatOf(stats, t).totalTf + tf[t]) else StatOf(stats, t)
  {
  }

  lemma NoHoldersNoTf(docs: map<Key, Doc>, t: Token)
    requires Holders(docs, t) == {}
    ensures TotalTf(docs, t) == 0.0
  {
    forall k | k in docs.Keys ensures TfAt(docs, t)(k) == 0.0 {
      assert k !in Holders(docs, t);
    }
    SumZero(docs.Keys, TfAt(docs, t));
  }

  lemma HoldersRemoved(docs: map<Key, Doc>, key: Key, t: Token)
    requires key in docs
    ensures |Holders(docs - {key}, t)| == |Holders(docs, t)| - if t in docs[key].tf then 1 else 0
  {
    HoldersAdded(docs - {key}, key, docs[key], t);
    assert (docs - {key})[key := docs[key]] == docs;
  }

  lemma StatRemoved(docs: map<Key, Doc>, stats: map<Token, Stat>, key: Key, t: Token)
    requires key in docs && StatConsistent(docs, stats, t)
    ensures StatConsistent(docs - {key}, RemoveStats(stats, docs[key].tf), t)
  {
    HoldersRemoved(docs, key, t);
    StatOfRemoved(stats, docs[key].tf, t);
    assert t in docs[key].tf ==> key in Holders(docs, t) && StatOf(stats, t).df > 0;
    assert StatOf(RemoveStats(stats, docs[key].tf), t).totalTf as real == TotalTf(docs - {key}, t) by {
      TotalRemoved(docs, stats, key, t);
    }
  }

  lemma TotalRemoved(docs: map<Key, Doc>, stats: map<Token, Stat>, key: Key, t: Token)
    requires key in docs && StatConsistent(docs, stats, t)
    ensures StatOf(RemoveStats(stats, docs[key].tf), t).totalTf as real == TotalTf(docs - {key}, t)
  {
    var now := StatOf(RemoveStats(stats, docs[key].tf), t);
    StatOfRemoved(stats, docs[key].tf, t);
    if t in docs[key].tf && StatOf(stats, t).df <= 1 {
      HoldersRemoved(docs, key, t);
      assert key in Holders(docs, t);
      NoHoldersNoTf(docs - {key}, t);
    } else {
      OldDocTotals(docs, key, t);
    }
  }

  lemma HoldersAdded(docs: map<Key, Doc>, key: Key, doc: Doc, t: Token)
    requires key !in docs
    ensures |Holders(docs[key := doc], t)| == |Holders(docs, t)| + if t in doc.tf then 1 else 0
  {
    NewDocTotals(docs, key, doc, t);
    var holders := Holders(docs, t);
    if t in doc.tf {
      assert key !in holders && |holders + {key}| == |holders| + 1;
    } else {
      assert holders + {} == holders;
    }
  }

  lemma StatAdded(docs: map<Key, Doc>, stats: map<Token, Stat>, key: Key, doc: Doc, t: Token)
    requires key !in docs && StatConsistent(docs, stats, t)
    ensures StatConsistent(docs[key := doc], AddStats(stats, doc.tf), t)
  {
    HoldersAdded(docs, key, doc, t);
    StatOfAdded(stats, doc.tf, t);
    assert StatOf(AddStats(stats, doc.tf), t).totalTf as real == TotalTf(docs[key := doc], t) by {
      TotalAdded(docs, stats, key, doc, t);
    }
  }

  lemma TotalAdded(docs: map<Key, Doc>, stats: map<Token, Stat>, key: Key, doc: Doc, t: Token)
    requires key !in docs && StatOf(stats, t).totalTf as real == TotalTf(docs, t)
    ensures StatOf(AddStats(stats, doc.tf), t).totalTf as real == TotalTf(docs[key := doc], t)
  {
    NewDocTotals(docs, key, doc, t);
    if t in doc.tf {
      assert StatOf(AddStats(stats, doc.tf), t).totalTf == StatOf(stats, t).totalTf + doc.tf[t];
    } else {
      assert StatOf(AddStats(stats, doc.tf), t) == StatOf(stats, t);
    }
  }

  lemma PostingsRemoved(
    docs: map<Key, Doc>, stats: map<Token, Stat>, postings: map<Token, seq<Posting>>, key: Key, t: Token)
    requires key in docs && StatConsistent(docs, stats, t) && PostingsConsistent(docs, postings, t)
    ensures PostingsConsistent(docs - {key}, RemovePostings(postings, stats, key, docs[key].tf), t)
  {
    var ps := PostingsOf(postings, t);
    var out := RemovePostings(postings, stats, key, docs[key].tf);
    ListsWithout(docs, t, ps, key);
    if t in docs[key].tf {
      assert key in Holders(docs, t) && |Holders(docs, t)| > 0;
      assert PostingsOf(out, t) == Without(ps, key);
    } else {
      forall p | p in ps ensures p.key != key {}
      WithoutAbsent(ps, key);
      assert PostingsOf(out, t) == ps;
    }
  }

  lemma PostingsAdded(docs: map<Key, Doc>, postings: map<Token, seq<Posting>>, key: Key, doc: Doc, t: Token)
    requires key !in docs && PostingsConsistent(docs, postings, t)
    ensures PostingsConsistent(docs[key := doc], AddPostings(postings, key, doc.tf), t)
  {
    ListsAppended(docs, t, PostingsOf(postings, t), key, doc);
    assert PostingsOf(AddPostings(postings, key, doc.tf), t) ==
           PostingsOf(postings, t) + if t in doc.tf then [Posting(key, doc.tf[t])] else [];
  }

  /** Removing any document, indexed or not, keeps the index consistent. */
  lemma RemoveConsistent(ix: Index, key: Key)
    requires Consistent(ix)
    ensures Consistent(RemoveDoc(ix, key))
  {
    if key in ix.docs {
      var out := RemoveDoc(ix, key);
      forall t ensures StatConsistent(out.docs, out.stats, t) {
        assert StatConsistent(ix.docs, ix.stats, t);
        StatRemoved(ix.docs, ix.stats, key, t);
      }
      forall t ensures PostingsConsistent(out.docs, out.postings, t) {
        assert StatConsistent(ix.docs, ix.stats, t) && PostingsConsistent(ix.docs, ix.postings, t);
        PostingsRemoved(ix.docs, ix.stats, ix.postings, key, t);
      }
    }
  }

  /** Adding a document, or replacing the one under its key, keeps it consistent. */
  lemma AddConsistent(ix: Index, r: Record)
    requires Consistent(ix)
    ensures Consistent(AddDoc(ix, r))
  {
    var base, doc, out := RemoveDoc(ix, r.key), DocOf(r), AddDoc(ix, r);
    RemoveConsistent(ix, r.key);
    assert r.key !in base.docs;
    forall t ensures StatConsistent(out.docs, out.stats, t) {
      assert StatConsistent(base.docs, base.stats, t);
      StatAdded(base.docs, base.stats, r.key, doc, t);
    }
    forall t ensures PostingsConsistent(out.docs, out.postings, t) {
      assert PostingsConsistent(base.docs, base.postings, t);
      PostingsAdded(base.docs, base.postings, r.key, doc, t);
    }
  }

  /** Every batch of additions and replacements keeps the index consistent. */
  lemma {:induction false} AddAllConsistent(ix: Index, rs: seq<Record>)
    requires Consistent(ix)
    ensures Consistent(AddAll(ix, rs))
    decreases |rs|
  {
    if rs != [] {
      AddAllConsistent(ix, rs[..|rs| - 1]);
      AddConsistent(AddAll(ix, rs[..|rs| - 1]), rs[|rs| - 1]);
    }
  }

  /** Statistics are a function of the corpus. */
  lemma StatsDetermined(docs: map<Key, Doc>, a: map<Token, Stat>, b: map<Token, Stat>)
    requires forall t :: StatConsistent(docs, a, t)
    requires forall t :: StatConsistent(docs, b, t)
    ensures a == b
  {
    forall t ensures t in a <==> t in b ensures t in a ==> a[t] == b[t] {
      assert StatConsistent(docs, a, t) && StatConsistent(docs, b, t);
    }
  }

  lemma {:induction false} WithoutAppended(ps: seq<Posting>, p: Posting)
    requires forall q :: q in ps ==> q.key != p.key
    ensures Without(ps + [p], p.key) == ps
  {
    if ps != [] {
      assert ps[0] in ps;
      assert (ps + [p])[1..] == ps[1..] + [p];
      WithoutAppended(ps[1..], p);
    }
  }

  lemma PostingsUndone(ix: Index, r: Record, t: Token)
    requires Consistent(ix) && r.key !in ix.docs
    requires Consistent(AddDoc(ix, r)) && Consistent(RemoveDoc(AddDoc(ix, r), r.key))
    ensures var back := RemoveDoc(AddDoc(ix, r), r.key).postings;
            (t in back <==> t in ix.postings) && (t in back ==> back[t] == ix.postings[t])
  {
    var more, tf := AddDoc(ix, r), DocOf(r).tf;
    var back := RemoveDoc(more, r.key);
    var ps := PostingsOf(ix.postings, t);
    assert PostingsConsistent(ix.docs, ix.postings, t);
    assert PostingsOf(back.postings, t) == ps by {
      if t in tf {
        assert StatConsistent(more.docs, more.stats, t);
        assert r.key in Holders(more.docs, t) && |Holders(more.docs, t)| > 0;
        WithoutAppended(ps, Posting(r.key, tf[t]));
      }
    }
    assert PostingsConsistent(back.docs, back.postings, t);
  }

  lemma MapsEqual<K, V>(a: map<K, V>, b: map<K, V>)
    requires forall k :: k in a <==> k in b
    requires forall k :: k in a ==> a[k] == b[k]
    ensures a == b
  {
  }

  /** Removing a freshly added document restores documents, statistics and posting
      lists exactly, posting order included. */
  lemma RemoveUndoesAdd(ix: Index, r: Record)
    requires Consistent(ix) && r.key !in ix.docs
    ensures RemoveDoc(AddDoc(ix, r), r.key) == ix
  {
    var more := AddDoc(ix, r);
    var back := RemoveDoc(more, r.key);
    AddConsistent(ix, r);
    RemoveConsistent(more, r.key);
    assert back.docs == ix.docs;
    StatsDetermined(ix.docs, back.stats, ix.stats);
    forall t ensures t in back.postings <==> t in ix.postings
      ensures t in back.postings ==> back.postings[t] == ix.postings[t]
    {
      PostingsUndone(ix, r, t);
    }
    MapsEqual(back.postings, ix.postings);
  }

  // ---------------------------------------------------------------------------
  // Runs
  // ---------------------------------------------------------------------------

  datatype Change = Add(record: Record) | Remove(key: Key) | Clear | Refresh(records: seq<Record>)

  function Apply(ix: Index, c: Change): Index {
    match c
    case Add(r) => AddDoc(ix, r)
    case Remove(k) => RemoveDoc(ix, k)
    case Clear => EMPTY
    case Refresh(rs) => AddAll(ix, rs)
  }

  function Run(ix: Index, changes: seq<Change>): Index
    decreases |changes|
  {
    if changes == [] then ix else Run(Apply(ix, changes[0]), changes[1..])
  }

  lemma EmptyConsistent()
    ensures Consistent(EMPTY)
  {
    forall t ensures StatConsistent(EMPTY.docs, EMPTY.stats, t) && PostingsConsistent(EMPTY.docs, EMPTY.postings, t) {
      NoHoldersNoTf(EMPTY.docs, t);
    }
  }

  /** After any run of additions, replacements, removals, clears and batch refreshes,
      statistics and postings agree with the documents. */
  lemma {:induction false} RunConsistent(ix: Index, changes: seq<Change>)
    requires Consistent(ix)
    ensures Consistent(Run(ix, changes))
    decreases |changes|
  {
    if changes != [] {
      match changes[0] {
        case Add(r) => AddConsistent(ix, r);
        case Remove(k) => RemoveConsistent(ix, k);
        case Clear => EmptyConsistent();
        case Refresh(rs) => AddAllConsistent(ix, rs);
      }
      RunConsistent(Apply(ix, changes[0]), changes[1..]);
    }
  }

  // ---------------------------------------------------------------------------
  // Which documents a run leaves
  // ---------------------------------------------------------------------------

  /** `d` is what the index stores of `r`. */
  ghost predicate IsDocOf(d: Doc, r: Record) {
    && d.tokens == r.tokens && d.len == |r.tokens|
    && d.exacts == r.exacts && d.textTokens == r.textTokens
    && forall t :: (t in d.tf <==> t in r.tokens) && (t in d.tf ==> d.tf[t] == multiset(r.tokens)[t])
  }

  ghost predicate SameAt(a: map<Key, Doc>, b: map<Key, Doc>, k: Key) {
    (k in a <==> k in b) && (k in a ==> a[k] == b[k])
  }

  /** Apart from `k` the documents are the same. */
  ghost predicate SameExcept(a: map<Key, Doc>, b: map<Key, Doc>, k: Key) {
    forall j :: j != k ==> SameAt(a, b, j)
  }

  /** An addition stores the record under its key, replacing what was there, and leaves
      every other document as it was. */
  lemma AddReplaces(ix: Index, r: Record)
    ensures HoldsRecord(AddDoc(ix, r).docs, r.key, r)
    ensures SameExcept(AddDoc(ix, r).docs, ix.docs, r.key)
  {
  }

  /** A removal drops its key and leaves every other document as it was. */
  lemma RemoveDrops(ix: Index, key: Key)
    ensures key !in RemoveDoc(ix, key).docs
    ensures SameExcept(RemoveDoc(ix, key).docs, ix.docs, key)
  {
  }

  ghost predicate HoldsRecord(docs: map<Key, Doc>, k: Key, r: Record) {
    k in docs && IsDocOf(docs[k], r)
  }

  lemma BatchStep(ix: Index, rs: seq<Record>)
    requires rs != []
    ensures var n := |rs| - 1;
            && HoldsRecord(AddAll(ix, rs).docs, rs[n].key, rs[n])
            && SameExcept(AddAll(ix, rs).docs, AddAll(ix, rs[..n]).docs, rs[n].key)
  {
    AddReplaces(AddAll(ix, rs[..|rs| - 1]), rs[|rs| - 1]);
  }

  lemma StillHolds(after: map<Key, Doc>, before: map<Key, Doc>, k: Key, r: Record)
    requires SameAt(after, before, k) && HoldsRecord(before, k, r)
    ensures HoldsRecord(after, k, r)
  {
  }

  /** `r` is the last record of the batch with its key. */
  ghost predicate LastInBatch(rs: seq<Record>, j: int) {
    0 <= j < |rs| && forall m :: j < m < |rs| ==> rs[m].key != rs[j].key
  }

  /** After a batch a key holds its last record in the batch. */
  lemma {:induction false} BatchHoldsLast(ix: Index, rs: seq<Record>, j: nat)
    requires LastInBatch(rs, j)
    ensures HoldsRecord(AddAll(ix, rs).docs, rs[j].key, rs[j])
    decreases |rs|
  {
    var n := |rs| - 1;
    BatchStep(ix, rs);
    if j < n {
      BatchHoldsLast(ix, rs[..n], j);
      StillHolds(AddAll(ix, rs).docs, AddAll(ix, rs[..n]).docs, rs[j].key, rs[j]);
    }
  }

  lemma {:induction false} BatchKeepsOthers(ix: Index, rs: seq<Record>, k: Key)
    requires forall m :: 0 <= m < |rs| ==> rs[m].key != k
    ensures SameAt(AddAll(ix, rs).docs, ix.docs, k)
    decreases |rs|
  {
    if rs != [] {
      var n := |rs| - 1;
      BatchKeepsOthers(ix, rs[..n], k);
      BatchStep(ix, rs);
    }
  }

  ghost predicate Touches(c: Change, k: Key) {
    match c
    case Add(r) => r.key == k
    case Remove(key) => key == k
    case Clear => true
    case Refresh(rs) => exists m :: 0 <= m < |rs| && rs[m].key == k
  }

  lemma UntouchedStep(ix: Index, c: Change, k: Key)
    requires !Touches(c, k)
    ensures SameAt(Apply(ix, c).docs, ix.docs, k)
  {
    match c
    case Add(r) => AddReplaces(ix, r);
    case Remove(key) => RemoveDrops(ix, key);
    case Clear =>
    case Refresh(rs) => BatchKeepsOthers(ix, rs, k);
  }

  lemma {:induction false} UntouchedKept(ix: Index, changes: seq<Change>, k: Key)
    requires forall j :: 0 <= j < |changes| ==> !Touches(changes[j], k)
    ensures SameAt(Run(ix, changes).docs, ix.docs, k)
    decreases |changes|
  {
    if changes != [] {
      UntouchedStep(ix, changes[0], k);
      UntouchedKept(Apply(ix, changes[0]), changes[1..], k);
    }
  }

  ghost predicate LastTouch(changes: seq<Change>, i: nat, k: Key) {
    i < |changes| && Touches(changes[i], k) && forall j :: i < j < |changes| ==> !Touches(changes[j], k)
  }

  /** What the change `c`, which touches `k`, leaves under it: the record it adds last, or
      nothing when it removes or clears. */
  ghost predicate Leaves(docs: map<Key, Doc>, c: Change, k: Key) {
    match c
    case Add(r) => HoldsRecord(docs, k, r)
    case Remove(_) => k !in docs
    case Clear => k !in docs
    case Refresh(rs) => forall m :: LastInBatch(rs, m) && rs[m].key == k ==> HoldsRecord(docs, k, rs[m])
  }

  lemma LeavesSame(after: map<Key, Doc>, before: map<Key, Doc>, c: Change, k: Key)
    requires SameAt(after, before, k) && Leaves(before, c, k)
    ensures Leaves(after, c, k)
  {
  }

  /** After any run what the index holds under a key is what the last change touching the
      key left there. */
  lemma {:induction false} RunHoldsLast(ix: Index, changes: seq<Change>, i: nat, k: Key)
    requires LastTouch(changes, i, k)
    ensures Leaves(Run(ix, changes).docs, changes[i], k)
    decreases |changes|
  {
    var next := Apply(ix, changes[0]);
    if i > 0 {
      assert LastTouch(changes[1..], i - 1, k);
      RunHoldsLast(next, changes[1..], i - 1, k);
    } else {
      LastStep(ix, changes[0], k);
      UntouchedKept(next, changes[1..], k);
      LeavesSame(Run(ix, changes).docs, next.docs, changes[0], k);
    }
  }

  lemma LastStep(ix: Index, c: Change, k: Key)
    requires Touches(c, k)
    ensures Leaves(Apply(ix, c).docs, c, k)
  {
    match c
    case Add(r) => AddReplaces(ix, r);
    case Remove(key) => RemoveDrops(ix, key);
    case Clear =>
    case Refresh(rs) =>
      forall m | LastInBatch(rs, m) && rs[m].key == k ensures HoldsRecord(AddAll(ix, rs).docs, k, rs[m]) {
        BatchHoldsLast(ix, rs, m);
      }
  }

  /** So two histories that leave the same documents leave the same statistics and, up
      to order, the same posting lists. */
  lemma IndexDetermined(a: Index, b: Index)
    requires Consistent(a) && Consistent(b) && a.docs == b.docs
    ensures a.stats == b.stats && a.postings.Keys == b.postings.Keys
    ensures forall t :: multiset(PostingsOf(a.postings, t)) == multiset(PostingsOf(b.postings, t))
  {
    StatsDetermined(a.docs, a.stats, b.stats);
    forall t ensures t in a.postings <==> t in b.postings
      ensures multiset(PostingsOf(a.postings, t)) == multiset(PostingsOf(b.postings, t))
    {
      assert PostingsConsistent(a.docs, a.postings, t) && PostingsConsistent(b.docs, b.postings, t);
      ListsSame(a.docs, t, PostingsOf(a.postings, t), PostingsOf(b.postings, t));
      assert t in a.postings ==> a.postings[t][0] in PostingsOf(b.postings, t);
      assert t in b.postings ==> b.postings[t][0] in PostingsOf(a.postings, t);
    }
  }

  lemma ListsSame(docs: map<Key, Doc>, t: Token, a: seq<Posting>, b: seq<Posting>)
    requires Lists(docs, t, a) && Lists(docs, t, b)
    ensures forall p :: p in a <==> p in b
    ensures multiset(a) == multiset(b)
  {
    forall p ensures p in a <==> p in b {
    }
    forall p ensures multiset(a)[p] == multiset(b)[p] {
      ListedOnce(a, p);
      ListedOnce(b, p);
    }
  }

  lemma {:induction false} ListedOnce(ps: seq<Posting>, p: Posting)
    requires forall i, j :: 0 <= i < j < |ps| ==> ps[i].key != ps[j].key
    ensures multiset(ps)[p] == if p in ps then 1 else 0
    decreases |ps|
  {
    if ps != [] {
      assert ps == [ps[0]] + ps[1..];
      ListedOnce(ps[1..], p);
    }
  }
}
