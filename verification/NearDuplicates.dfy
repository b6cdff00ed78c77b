/** Candidate generation for near-duplicate detection, and the whole detector. */
module NearDuplicates {
  import opened FiniteSets
  import opened Options
  import opened Connectivity
  import opened Dictionaries
  import Clustering

  type Shingle = string
  /** Permutation `i` of the hash of a shingle. */
  type Mix = (Shingle, nat) -> nat

  /** An item reduced to its shingle set and its token set. */
  datatype Item = Item(shingles: set<Shingle>, tokens: set<string>)

  /** The dashboard estimator has a token threshold, a bucket cap and an item limit;
      the cron detector has none of the three. */
  datatype Config = Config(
    permutations: nat, bands: nat, rows: nat, shingleThreshold: real,
    tokenThreshold: Option<real>, bucketCap: Option<nat>, itemLimit: Option<nat>)

  // ---------------------------------------------------------------------------
  // MinHash
  // ---------------------------------------------------------------------------

  ghost predicate IsLeast(m: nat, s: set<nat>) {
    m in s && forall x :: x in s ==> m <= x
  }

  lemma {:induction false} MinimumExists(s: set<nat>)
    requires s != {}
    ensures exists m :: IsLeast(m, s)
    decreases |s|
  {
    var y: nat :| y in s;
    if s == {y} {
      assert IsLeast(y, s);
    } else {
      MinimumExists(s - {y});
      var m: nat :| IsLeast(m, s - {y});
      assert forall x :: x in s ==> x == y || x in s - {y};
      assert IsLeast(if m <= y then m else y, s);
    }
  }

  ghost function Minimum(s: set<nat>): (m: nat)
    requires s != {}
    ensures IsLeast(m, s)
  {
    MinimumExists(s);
    var m: nat :| IsLeast(m, s);
    m
  }

  ghost function Images(shingles: set<Shingle>, mix: Mix, i: nat): set<nat> {
    set sh | sh in shingles :: mix(sh, i)
  }

  ghost function SlotValue(shingles: set<Shingle>, mix: Mix, i: nat): Option<nat> {
    if shingles == {} then None else
      var sh :| sh in shingles;
      assert mix(sh, i) in Images(shingles, mix, i);
      Some(Minimum(Images(shingles, mix, i)))
  }

  /** One minimum per permutation; the empty set signs as zeros. */
  ghost function Signature(shingles: set<Shingle>, mix: Mix, permutations: nat): seq<nat> {
    seq(permutations, i requires 0 <= i < permutations =>
      var v := SlotValue(shingles, mix, i);
      if v.Some? then v.value else 0)
  }

  method MinhashSignature(shingles: set<Shingle>, mix: Mix, permutations: nat) returns (sig: seq<nat>)
    ensures sig == Signature(shingles, mix, permutations)
  {
    var slots: seq<Option<nat>> := seq(permutations, _ => None);
    var todo := shingles;
    ghost var done: set<Shingle> := {};
    while todo != {}
      invariant done + todo == shingles && |slots| == permutations
      invariant forall i :: 0 <= i < permutations ==> slots[i] == SlotValue(done, mix, i)
      decreases |todo|
    {
      var sh :| sh in todo;
      ghost var before := slots;
      for i := 0 to permutations
        invariant |slots| == permutations
        invariant forall j :: 0 <= j < i ==> slots[j] == SlotValue(done + {sh}, mix, j)
        invariant forall j :: i <= j < permutations ==> slots[j] == before[j]
      {
        SlotLowered(done, sh, mix, i);
        var mixed := mix(sh, i);
        if slots[i].None? || mixed < slots[i].value {
          slots := slots[i := Some(mixed)];
        }
      }
      todo, done := todo - {sh}, done + {sh};
    }
    assert done == shingles;
    sig := seq(permutations, i requires 0 <= i < permutations => if slots[i].Some? then slots[i].value else 0);
  }

  lemma SlotLowered(done: set<Shingle>, sh: Shingle, mix: Mix, i: nat)
    ensures var v, w := SlotValue(done, mix, i), SlotValue(done + {sh}, mix, i);
            w == if v.None? || mix(sh, i) < v.value then Some(mix(sh, i)) else v
  {
    assert Images(done + {sh}, mix, i) == Images(done, mix, i) + {mix(sh, i)};
    assert sh in done + {sh};
    if done == {} {
      assert Images(done, mix, i) == {};
    }
  }

  // ---------------------------------------------------------------------------
  // Buckets
  // ---------------------------------------------------------------------------

  type BandHash = seq<nat> -> int
  type BucketKey = (nat, int)

  /** Python's clipped slice `sig[b * rows : b * rows + rows]`. */
  function Band(sig: seq<nat>, b: nat, rows: nat): seq<nat> {
    var lo := if b * rows < |sig| then b * rows else |sig|;
    var hi := if b * rows + rows < |sig| then b * rows + rows else |sig|;
    sig[lo..hi]
  }

  function KeyOf(sig: seq<nat>, b: nat, rows: nat, hash: BandHash): BucketKey {
    (b, hash(Band(sig, b, rows)))
  }

  ghost predicate Holds(buckets: map<BucketKey, seq<nat>>, key: BucketKey, x: nat) {
    key in buckets && x in buckets[key]
  }

  /** Item `x` belongs in bucket `key`. */
  ghost predicate Belongs(sigs: seq<seq<nat>>, cfg: Config, hash: BandHash, key: BucketKey, x: nat) {
    x < |sigs| && key.0 < cfg.bands && KeyOf(sigs[x], key.0, cfg.rows, hash) == key
  }

  /** Buckets once items below `n` are filed, and item `n` in the bands below `b`. */
  ghost predicate Filed(buckets: map<BucketKey, seq<nat>>, sigs: seq<seq<nat>>, cfg: Config, hash: BandHash,
                        n: nat, b: nat)
  {
    && (forall key :: key in buckets ==> Ascending(buckets[key]))
    && (forall key: BucketKey, x: nat :: Holds(buckets, key, x) <==>
          Belongs(sigs, cfg, hash, key, x) && (x < n || (x == n && key.0 < b)))
  }

  method FileBuckets(sigs: seq<seq<nat>>, cfg: Config, hash: BandHash) returns (buckets: map<BucketKey, seq<nat>>)
    ensures Filed(buckets, sigs, cfg, hash, |sigs|, 0)
  {
    buckets := map[];
    for i := 0 to |sigs|
      invariant Filed(buckets, sigs, cfg, hash, i, 0)
    {
      for b := 0 to cfg.bands
        invariant Filed(buckets, sigs, cfg, hash, i, b)
      {
        FileStep(buckets, sigs, cfg, hash, i, b);
        var key := KeyOf(sigs[i], b, cfg.rows, hash);
        buckets := GroupsWith(buckets, key, i);
      }
    }
  }

  lemma FileStep(buckets: map<BucketKey, seq<nat>>, sigs: seq<seq<nat>>, cfg: Config, hash: BandHash, n: nat, b: nat)
    requires n < |sigs| && b < cfg.bands && Filed(buckets, sigs, cfg, hash, n, b)
    ensures var key := KeyOf(sigs[n], b, cfg.rows, hash);
            Filed(GroupsWith(buckets, key, n), sigs, cfg, hash, n, b + 1)
  {
    var key := KeyOf(sigs[n], b, cfg.rows, hash);
    var own := if key in buckets then buckets[key] else [];
    var more := GroupsWith(buckets, key, n);
    forall k | 0 <= k < |own| ensures own[k] < n {
      assert Holds(buckets, key, own[k]);
    }
    forall other: BucketKey, x: nat ensures Holds(more, other, x) <==>
      Belongs(sigs, cfg, hash, other, x) && (x < n || (x == n && other.0 < b + 1))
    {
      assert Holds(more, other, x) <==> Holds(buckets, other, x) || (other == key && x == n);
    }
  }

  ghost predicate SizeAllowed(size: nat, cfg: Config) {
    size >= 2 && (cfg.bucketCap.Some? ==> size <= cfg.bucketCap.value)
  }

  /** Every index pair of one ascending bucket, smaller index first. */
  method BucketPairs(bucket: seq<nat>) returns (pairs: Edges)
    requires Ascending(bucket)
    ensures forall a: nat, b: nat :: (a, b) in pairs <==> a in bucket && b in bucket && a < b
  {
    pairs := {};
    for i := 0 to |bucket|
      invariant forall a: nat, b: nat :: (a, b) in pairs <==> a in bucket[..i] && b in bucket && a < b
    {
      for j := i + 1 to |bucket|
        invariant forall a: nat, b: nat :: (a, b) in pairs <==>
                    b in bucket && a < b && (a in bucket[..i] || (a == bucket[i] && b in bucket[i + 1..j]))
      {
        var a, b := bucket[i], bucket[j];
        if a > b {
          a, b := b, a;
        }
        assert bucket[i + 1..j + 1] == bucket[i + 1..j] + [bucket[j]];
        pairs := pairs + {(a, b)};
      }
      assert bucket[..i + 1] == bucket[..i] + [bucket[i]];
      forall b | b in bucket && bucket[i] < b ensures b in bucket[i + 1..] {
        var k :| 0 <= k < |bucket| && bucket[k] == b;
        assert bucket[i + 1..][k - i - 1] == b;
      }
    }
    assert bucket[..|bucket|] == bucket;
  }

  ghost predicate ShareBucket(buckets: map<BucketKey, seq<nat>>, keys: set<BucketKey>, cfg: Config, a: nat, b: nat) {
    exists key :: key in keys && key in buckets && a in buckets[key] && b in buckets[key]
                  && SizeAllowed(|buckets[key]|, cfg)
  }

  method CandidatePairs(buckets: map<BucketKey, seq<nat>>, cfg: Config) returns (pairs: Edges)
    requires forall key :: key in buckets ==> Ascending(buckets[key])
    ensures forall a: nat, b: nat :: (a, b) in pairs <==> a < b && ShareBucket(buckets, buckets.Keys, cfg, a, b)
  {
    pairs := {};
    var todo := buckets.Keys;
    ghost var done: set<BucketKey> := {};
    while todo != {}
      invariant done + todo == buckets.Keys
      invariant forall a: nat, b: nat :: (a, b) in pairs <==> a < b && ShareBucket(buckets, done, cfg, a, b)
      decreases |todo|
    {
      var key :| key in todo;
      var bucket := buckets[key];
      if !(|bucket| < 2 || (cfg.bucketCap.Some? && |bucket| > cfg.bucketCap.value)) {
        var more := BucketPairs(bucket);
        pairs := pairs + more;
      }
      forall a: nat, b: nat ensures ShareBucket(buckets, done + {key}, cfg, a, b) <==>
        ShareBucket(buckets, done, cfg, a, b) || (a in bucket && b in bucket && SizeAllowed(|bucket|, cfg))
      {
      }
      todo, done := todo - {key}, done + {key};
    }
    assert done == buckets.Keys;
  }

  // ---------------------------------------------------------------------------
  // The detector
  // ---------------------------------------------------------------------------

  function Jaccard(a: set<string>, b: set<string>): real {
    if a == {} || b == {} then 0.0
    else if |a + b| == 0 then 0.0
    else |a * b| as real / |a + b| as real
  }

  predicate SimilarItems(a: Item, b: Item, cfg: Config) {
    || Jaccard(a.shingles, b.shingles) >= cfg.shingleThreshold
    || (cfg.tokenThreshold.Some? && Jaccard(a.tokens, b.tokens) >= cfg.tokenThreshold.value)
  }

  ghost function Signatures(items: seq<Item>, mix: Mix, cfg: Config): seq<seq<nat>> {
    seq(|items|, i requires 0 <= i < |items| => Signature(items[i].shingles, mix, cfg.permutations))
  }

  ghost function BucketMates(sigs: seq<seq<nat>>, cfg: Config, hash: BandHash, band: nat, i: nat): set<nat>
    requires i < |sigs|
  {
    set x: nat | x < |sigs| && KeyOf(sigs[x], band, cfg.rows, hash) == KeyOf(sigs[i], band, cfg.rows, hash)
  }

  /** Two items meet in some band's bucket, and the bucket has an allowed size. */
  ghost predicate MeetIn(sigs: seq<seq<nat>>, cfg: Config, hash: BandHash, a: nat, b: nat)
    requires a < |sigs| && b < |sigs|
  {
    exists band: nat :: band < cfg.bands
      && KeyOf(sigs[a], band, cfg.rows, hash) == KeyOf(sigs[b], band, cfg.rows, hash)
      && SizeAllowed(|BucketMates(sigs, cfg, hash, band, a)|, cfg)
  }

  ghost predicate IsLink(items: seq<Item>, mix: Mix, cfg: Config, hash: BandHash, a: nat, b: nat) {
    && a < b < |items| && SimilarItems(items[a], items[b], cfg)
    && MeetIn(Signatures(items, mix, cfg), cfg, hash, a, b)
  }

  ghost function Links(items: seq<Item>, mix: Mix, cfg: Config, hash: BandHash): Edges {
    set a: nat, b: nat | a < |items| && b < |items| && IsLink(items, mix, cfg, hash, a, b) :: (a, b)
  }

  /** The clusters are the components of two or more items of the link graph. */
  method DetectDuplicates(items: seq<Item>, mix: Mix, cfg: Config, hash: BandHash)
    returns (clusters: seq<seq<nat>>)
    ensures cfg.itemLimit.Some? && |items| > cfg.itemLimit.value ==> clusters == []
    ensures !(cfg.itemLimit.Some? && |items| > cfg.itemLimit.value) ==>
              AreClusters(clusters, |items|, Links(items, mix, cfg, hash))
  {
    var n := |items|;
    if cfg.itemLimit.Some? && n > cfg.itemLimit.value { return []; }
    var sigs: seq<seq<nat>> := [];
    for i := 0 to n
      invariant |sigs| == i
      invariant forall j :: 0 <= j < i ==> sigs[j] == Signature(items[j].shingles, mix, cfg.permutations)
    {
      var sig := MinhashSignature(items[i].shingles, mix, cfg.permutations);
      sigs := sigs + [sig];
    }
    assert sigs == Signatures(items, mix, cfg);
    var buckets := FileBuckets(sigs, cfg, hash);
    var pairs := CandidatePairs(buckets, cfg);
    var similar := (a: nat, b: nat) => a < n && b < n && SimilarItems(items[a], items[b], cfg);
    forall a: nat, b: nat ensures (a, b) in pairs <==> a < b < n && MeetIn(sigs, cfg, hash, a, b) {
      MeetingBucket(buckets, sigs, cfg, hash, a, b);
    }
    clusters := Clustering.Cluster(n, pairs, similar);
    assert Clustering.Similar(pairs, similar) == Links(items, mix, cfg, hash) by {
      forall e: (nat, nat) ensures e in Clustering.Similar(pairs, similar) <==> e in Links(items, mix, cfg, hash) {
        assert e == (e.0, e.1);
      }
    }
  }

  ghost function Members(s: seq<nat>): set<nat> {
    set x | x in s
  }

  lemma {:induction false} AscendingSize(s: seq<nat>)
    requires Ascending(s)
    ensures |Members(s)| == |s|
    decreases |s|
  {
    if s != [] {
      AscendingSize(s[1..]);
      forall x: nat ensures x in Members(s) <==> x in {s[0]} + Members(s[1..]) {
        AscendingTail(s, x);
      }
      assert Members(s) == {s[0]} + Members(s[1..]);
      AscendingTail(s, s[0]);
    } else {
      assert Members(s) == {};
    }
  }

  lemma BucketIsMates(buckets: map<BucketKey, seq<nat>>, sigs: seq<seq<nat>>, cfg: Config, hash: BandHash,
                      key: BucketKey, a: nat)
    requires Filed(buckets, sigs, cfg, hash, |sigs|, 0) && Holds(buckets, key, a)
    ensures Belongs(sigs, cfg, hash, key, a)
    ensures |BucketMates(sigs, cfg, hash, key.0, a)| == |buckets[key]|
  {
    AscendingSize(buckets[key]);
    forall x: nat ensures x in BucketMates(sigs, cfg, hash, key.0, a) <==> x in Members(buckets[key]) {
      assert Holds(buckets, key, x) <==> x in buckets[key];
    }
    assert BucketMates(sigs, cfg, hash, key.0, a) == Members(buckets[key]);
  }

  lemma MeetingBucket(buckets: map<BucketKey, seq<nat>>, sigs: seq<seq<nat>>, cfg: Config, hash: BandHash, a: nat, b: nat)
    requires Filed(buckets, sigs, cfg, hash, |sigs|, 0)
    ensures a < b && ShareBucket(buckets, buckets.Keys, cfg, a, b) <==>
            a < b < |sigs| && MeetIn(sigs, cfg, hash, a, b)
  {
    if a < b && ShareBucket(buckets, buckets.Keys, cfg, a, b) {
      var key :| key in buckets.Keys && key in buckets && a in buckets[key] && b in buckets[key]
                 && SizeAllowed(|buckets[key]|, cfg);
      assert Holds(buckets, key, a) && Holds(buckets, key, b);
      BucketIsMates(buckets, sigs, cfg, hash, key, a);
    }
    if a < b < |sigs| && MeetIn(sigs, cfg, hash, a, b) {
      var band: nat :| band < cfg.bands
        && KeyOf(sigs[a], band, cfg.rows, hash) == KeyOf(sigs[b], band, cfg.rows, hash)
        && SizeAllowed(|BucketMates(sigs, cfg, hash, band, a)|, cfg);
      var key := KeyOf(sigs[a], band, cfg.rows, hash);
      assert Holds(buckets, key, a) && Holds(buckets, key, b);
      BucketIsMates(buckets, sigs, cfg, hash, key, a);
    }
  }

  /** Without a bucket cap, two items with the same non-empty shingles always end up
      in one cluster, for any threshold up to one. */
  lemma IdenticalItemsCluster(items: seq<Item>, mix: Mix, cfg: Config, hash: BandHash,
                              clusters: seq<seq<nat>>, a: nat, b: nat)
    requires a < b < |items| && items[a].shingles == items[b].shingles != {}
    requires cfg.bucketCap.None? && cfg.bands > 0 && cfg.shingleThreshold <= 1.0
    requires AreClusters(clusters, |items|, Links(items, mix, cfg, hash))
    ensures exists k :: 0 <= k < |clusters| && a in clusters[k] && b in clusters[k]
  {
    var links, sigs, sh := Links(items, mix, cfg, hash), Signatures(items, mix, cfg), items[a].shingles;
    assert sh + sh == sh && sh * sh == sh;
    assert Jaccard(sh, sh) == 1.0;
    assert {a, b} <= BucketMates(sigs, cfg, hash, 0, a);
    PairSize(BucketMates(sigs, cfg, hash, 0, a), a, b);
    assert KeyOf(sigs[a], 0, cfg.rows, hash) == KeyOf(sigs[b], 0, cfg.rows, hash);
    assert IsLink(items, mix, cfg, hash, a, b);
    ConnectedLink(links, a, b);
    var k :| 0 <= k < |clusters| && a in clusters[k];
    ConnectedTransitive(links, clusters[k][0], a, b);
  }

  lemma PairSize(s: set<nat>, a: nat, b: nat)
    requires a in s && b in s && a != b
    ensures |s| >= 2
  {
    assert |s - {a}| == |s| - 1;
    assert b in s - {a};
  }

  // ---------------------------------------------------------------------------
  // Similarity
  // ---------------------------------------------------------------------------

  /** Jaccard similarity is symmetric, lies in [0, 1], is one exactly for equal non-empty
      sets and zero exactly for sets without a common element. */
  lemma JaccardMeaning(a: set<string>, b: set<string>)
    ensures Jaccard(a, b) == Jaccard(b, a) && 0.0 <= Jaccard(a, b) <= 1.0
    ensures Jaccard(a, b) == 1.0 <==> a == b != {}
    ensures Jaccard(a, b) == 0.0 <==> a !! b
  {
    assert a + b == b + a && a * b == b * a;
    if a != {} && b != {} {
      var x :| x in a;
      assert x in a + b;
      SubsetSize(a * b, a + b);
      Fraction(|a * b|, |a + b|);
      if |a * b| == |a + b| {
        assert a * b == a + b;
        assert a <= b && b <= a;
      }
      assert a == b ==> a * b == a && a + b == a;
      assert |a * b| == 0 <==> a * b == {};
    }
  }

  lemma Fraction(m: nat, n: nat)
    requires m <= n && n > 0
    ensures 0.0 <= m as real / n as real <= 1.0
    ensures m as real / n as real == 1.0 <==> m == n
    ensures m as real / n as real == 0.0 <==> m == 0
  {
  }

  /** It is the share of common elements among all: the same number common, a larger union
      is less similar. */
  lemma JaccardCounts(a: set<string>, b: set<string>)
    requires a != {} && b != {}
    ensures Jaccard(a, b) * |a + b| as real == |a * b| as real
  {
    var x :| x in a;
    assert x in a + b;
    FractionTimes(|a * b|, |a + b|);
  }

  lemma FractionTimes(m: nat, n: nat)
    requires n > 0
    ensures m as real / n as real * n as real == m as real
  {
  }

  /** Items are similar by their shingles, or by their tokens where those have a threshold. */
  lemma SimilarEitherWay(a: Item, b: Item, cfg: Config)
    ensures Jaccard(a.shingles, b.shingles) >= cfg.shingleThreshold ==> SimilarItems(a, b, cfg)
    ensures cfg.tokenThreshold.Some? && Jaccard(a.tokens, b.tokens) >= cfg.tokenThreshold.value ==> SimilarItems(a, b, cfg)
    ensures cfg.tokenThreshold.None? && SimilarItems(a, b, cfg) ==> Jaccard(a.shingles, b.shingles) >= cfg.shingleThreshold
  {
  }

  // ---------------------------------------------------------------------------
  // Signatures and bands
  // ---------------------------------------------------------------------------

  /** Each slot of a signature is the least image of the shingles under its permutation,
      zero for no shingles; so equal shingle sets sign alike. */
  lemma SignatureMeaning(shingles: set<Shingle>, mix: Mix, permutations: nat, i: nat)
    requires i < permutations
    ensures |Signature(shingles, mix, permutations)| == permutations
    ensures var v := Signature(shingles, mix, permutations)[i];
            && (shingles == {} ==> v == 0)
            && (forall sh :: sh in shingles ==> v <= mix(sh, i))
            && (shingles != {} ==> exists sh :: sh in shingles && v == mix(sh, i))
  {
    if shingles != {} {
      var images := Images(shingles, mix, i);
      var sh :| sh in shingles;
      assert mix(sh, i) in images;
      assert IsLeast(Minimum(images), images);
      forall x | x in shingles ensures Minimum(images) <= mix(x, i) {
        assert mix(x, i) in images;
      }
    }
  }

  /** Bands cut a signature into consecutive pieces: place `p` is in band `p / rows` alone,
      at `p % rows`. */
  lemma BandsAreConsecutive(sig: seq<nat>, rows: nat, b: nat, p: nat)
    requires rows > 0 && p < |sig| && b == p / rows
    ensures p % rows < |Band(sig, b, rows)| && Band(sig, b, rows)[p % rows] == sig[p]
    ensures |Band(sig, b, rows)| <= rows
  {
    assert b * rows + p % rows == p;
  }

  /** Items meet in a band exactly when that band of their signatures hashes alike. */
  lemma KeysMeet(x: seq<nat>, y: seq<nat>, a: nat, b: nat, rows: nat, hash: BandHash)
    ensures KeyOf(x, a, rows, hash) == KeyOf(y, b, rows, hash) <==>
            a == b && hash(Band(x, a, rows)) == hash(Band(y, b, rows))
  {
  }

  /** A bucket over the cap is passed over: more alike items than the cap admits make no
      link at all. */
  lemma TooManyAlikeAreMissed(items: seq<Item>, mix: Mix, cfg: Config, hash: BandHash)
    requires cfg.bucketCap.Some? && |items| > cfg.bucketCap.value
    requires forall i, j :: 0 <= i < |items| && 0 <= j < |items| ==> items[i].shingles == items[j].shingles
    ensures Links(items, mix, cfg, hash) == {}
  {
    var sigs := Signatures(items, mix, cfg);
    forall a: nat, b: nat | a < |items| && b < |items| ensures !IsLink(items, mix, cfg, hash, a, b) {
      forall band: nat ensures !SizeAllowed(|BucketMates(sigs, cfg, hash, band, a)|, cfg) {
        AllAreMates(items, mix, cfg, hash, band, a);
      }
    }
  }

  lemma AllAreMates(items: seq<Item>, mix: Mix, cfg: Config, hash: BandHash, band: nat, a: nat)
    requires a < |items|
    requires forall i, j :: 0 <= i < |items| && 0 <= j < |items| ==> items[i].shingles == items[j].shingles
    ensures |BucketMates(Signatures(items, mix, cfg), cfg, hash, band, a)| == |items|
  {
    var sigs := Signatures(items, mix, cfg);
    forall x: nat | x < |items| ensures x in BucketMates(sigs, cfg, hash, band, a) {
      assert sigs[x] == sigs[a];
    }
    UpToSize(|items|);
    assert BucketMates(sigs, cfg, hash, band, a) == UpTo(|items|);
  }

  function UpTo(n: nat): set<nat> {
    if n == 0 then {} else UpTo(n - 1) + {n - 1}
  }

  lemma {:induction false} UpToSize(n: nat)
    ensures |UpTo(n)| == n && forall x: nat :: x in UpTo(n) <==> x < n
    decreases n
  {
    if n > 0 {
      UpToSize(n - 1);
    }
  }
}
