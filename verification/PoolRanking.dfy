/** Reranking of a raw candidate pool under a policy: reciprocal-rank fusion, min-max
    calibration, a weighted blend per band, then Active before Superseded. */
module PoolRanking {
  import opened Options
  import opened Ordering
  import opened Sequences
  import opened Tuning

  /** `content` stands for everything the two features below look at. */
  datatype Candidate = Candidate(
    key: Key, dense: Option<real>, lexical: Option<real>, importance: real, content: string)

  /** Recency under the policy's half-life, and exact match with the query. */
  datatype Features = Features(recency: Candidate -> real, exact: Candidate -> bool)

  datatype Band = Band(dense: seq<Candidate>, lexical: seq<Candidate>)

  datatype Pool = Pool(active: Band, superseded: Band)

  // ---------------------------------------------------------------------------
  // Channels
  // ---------------------------------------------------------------------------

  function AtLeastOne(k: int): int {
    if k < 1 then 1 else k
  }

  function Cut(b: Band, t: Tuning): Band {
    Band(Take(b.dense, AtLeastOne(t.denseK)), Take(b.lexical, AtLeastOne(t.lexicalK)))
  }

  function Keys(channel: seq<Candidate>): set<Key> {
    set c | c in channel :: c.key
  }

  /** Ranks count from one; a repeated key keeps its last rank. */
  function Ranks(channel: seq<Candidate>): map<Key, nat> {
    if channel == [] then map[] else
      var n := |channel| - 1;
      Ranks(channel[..n])[channel[n].key := n + 1]
  }

  /** The candidate that stands for a key: its last dense entry, else its first
      lexical one. */
  function LastOf(channel: seq<Candidate>): map<Key, Candidate> {
    if channel == [] then map[] else
      var n := |channel| - 1;
      LastOf(channel[..n])[channel[n].key := channel[n]]
  }

  function AddMissing(base: map<Key, Candidate>, channel: seq<Candidate>): map<Key, Candidate> {
    if channel == [] then base else
      var n := |channel| - 1;
      var before := AddMissing(base, channel[..n]);
      if channel[n].key in before then before else before[channel[n].key := channel[n]]
  }

  function Base(b: Band): map<Key, Candidate> {
    AddMissing(LastOf(b.dense), b.lexical)
  }

  // ---------------------------------------------------------------------------
  // Calibration
  // ---------------------------------------------------------------------------

  type Channel = Candidate -> Option<real>

  const DENSE: Channel := (c: Candidate) => c.dense
  const LEXICAL: Channel := (c: Candidate) => c.lexical

  function Scores(channel: seq<Candidate>, of: Channel): seq<real> {
    if channel == [] then [] else
      var n := |channel| - 1;
      Scores(channel[..n], of) + if of(channel[n]).Some? then [of(channel[n]).value] else []
  }

  function Least(s: seq<real>): real
    requires s != []
  {
    if |s| == 1 then s[0] else
      var m := Least(s[..|s| - 1]);
      if s[|s| - 1] < m then s[|s| - 1] else m
  }

  function Greatest(s: seq<real>): real
    requires s != []
  {
    if |s| == 1 then s[0] else
      var m := Greatest(s[..|s| - 1]);
      if s[|s| - 1] > m then s[|s| - 1] else m
  }

  /** Min-max calibration of one score; a narrow span calibrates to one. */
  function Calibrated(x: real, lo: real, hi: real): real {
    if hi - lo <= 0.000000001 then 1.0 else ClampReal((x - lo) / (hi - lo), 0.0, 1.0)
  }

  function CalibrateWithin(channel: seq<Candidate>, of: Channel, lo: real, hi: real): map<Key, real> {
    if channel == [] then map[] else
      var n := |channel| - 1;
      var before := CalibrateWithin(channel[..n], of, lo, hi);
      if of(channel[n]).None? then before else before[channel[n].key := Calibrated(of(channel[n]).value, lo, hi)]
  }

  function Calibrate(channel: seq<Candidate>, of: Channel): map<Key, real> {
    var s := Scores(channel, of);
    if s == [] then map[] else CalibrateWithin(channel, of, Least(s), Greatest(s))
  }

  // ---------------------------------------------------------------------------
  // Scores
  // ---------------------------------------------------------------------------

  function Get(m: map<Key, real>, k: Key): real {
    if k in m then m[k] else 0.0
  }

  function MaxRrf(t: Tuning): real {
    (t.rrfDense + t.rrfLexical) / AtLeastOne(t.rrfK + 1) as real
  }

  function Reciprocal(weight: real, k: int, rank: nat): real {
    if k + rank == 0 then 0.0 else weight / (k + rank) as real
  }

  /** What one channel contributes: nothing to a candidate it does not hold. */
  function Share(channel: seq<Candidate>, weight: real, rrfK: int, k: Key): real {
    if k in Ranks(channel) then Reciprocal(weight, rrfK, Ranks(channel)[k]) else 0.0
  }

  function RawRrf(b: Band, t: Tuning, k: Key): real {
    Share(b.dense, t.rrfDense, t.rrfK, k) + Share(b.lexical, t.rrfLexical, t.rrfK, k)
  }

  function Rrf(b: Band, t: Tuning, k: Key): real {
    if MaxRrf(t) > 0.0 then RawRrf(b, t, k) / MaxRrf(t) else 0.0
  }

  function Vector(b: Band, k: Key): real {
    Get(Calibrate(b.dense, DENSE), k)
  }

  /** The lexical channel, boosted on an exact match and capped at one. */
  function Boosted(x: real, t: Tuning, exact: bool): real {
    if !exact then x
    else if x + 0.02 * t.exactBoost > 1.0 then 1.0
    else x + 0.02 * t.exactBoost
  }

  function Lexical(b: Band, t: Tuning, k: Key, exact: bool): real {
    Boosted(Get(Calibrate(b.lexical, LEXICAL), k), t, exact)
  }

  /** The public scoring formula; feedback contributes nothing. */
  function Blend(t: Tuning, rrf: real, vector: real, lexical: real, importance: real, recency: real): real {
    t.finalRrf * rrf + t.finalVector * vector + t.finalLexical * lexical
    + t.importance * importance + t.recency * recency + t.feedback * 0.0
  }

  function Score(b: Band, t: Tuning, f: Features, k: Key): real
    requires k in Base(b)
  {
    var c := Base(b)[k];
    Blend(t, Rrf(b, t, k), Vector(b, k), Lexical(b, t, k, f.exact(c)), c.importance, f.recency(c))
  }

  /** The score table of a band, channels already cut. */
  function ScoreTable(b: Band, t: Tuning, f: Features): map<Key, real> {
    map k | k in Base(b) :: Score(b, t, f, k)
  }

  // ---------------------------------------------------------------------------
  // The ranker
  // ---------------------------------------------------------------------------

  datatype Hit = Hit(entry: Scored, superseded: bool)

  function Tag(s: seq<Scored>, superseded: bool): (r: seq<Hit>)
    ensures |r| == |s| && forall i :: 0 <= i < |s| ==> r[i] == Hit(s[i], superseded)
  {
    seq(|s|, i requires 0 <= i < |s| => Hit(s[i], superseded))
  }

  const MARGIN := 0.001

  function Lower(hits: map<Key, real>, floor: real): map<Key, real> {
    map k | k in hits :: if hits[k] < floor then hits[k] else floor
  }

  ghost function RankBand(b: Band, t: Tuning, f: Features): seq<Scored> {
    RankingOf(ScoreTable(Cut(b, t), t, f))
  }

  /** The superseded band as the fallback appends it: every score lowered to the margin
      below the lowest active score, when there is one. */
  ghost function Fallback(active: seq<Scored>, table: map<Key, real>, fallbackMin: int): seq<Scored> {
    if |active| >= fallbackMin then []
    else if active == [] then RankingOf(table)
    else RankingOf(Lower(table, active[|active| - 1].score - MARGIN))
  }

  function Assemble(active: seq<Scored>, extra: seq<Scored>, limit: int): seq<Hit> {
    Take(Tag(active, false) + Tag(extra, true), AtLeastOne(limit))
  }

  ghost function RankPool(p: Pool, t: Tuning, f: Features, limit: int): seq<Hit> {
    var active := RankBand(p.active, t, f);
    Assemble(active, Fallback(active, ScoreTable(Cut(p.superseded, t), t, f), t.fallbackMin), limit)
  }

  method BuildRanks(channel: seq<Candidate>) returns (ranks: map<Key, nat>)
    ensures ranks == Ranks(channel)
  {
    ranks := map[];
    for i := 0 to |channel|
      invariant ranks == Ranks(channel[..i])
    {
      assert channel[..i + 1][..i] == channel[..i];
      ranks := ranks[channel[i].key := i + 1];
    }
    assert channel[..|channel|] == channel;
  }

  method BuildBase(b: Band) returns (base: map<Key, Candidate>)
    ensures base == Base(b)
  {
    base := map[];
    for i := 0 to |b.dense|
      invariant base == LastOf(b.dense[..i])
    {
      assert b.dense[..i + 1][..i] == b.dense[..i];
      base := base[b.dense[i].key := b.dense[i]];
    }
    assert b.dense[..|b.dense|] == b.dense;
    for i := 0 to |b.lexical|
      invariant base == AddMissing(LastOf(b.dense), b.lexical[..i])
    {
      assert b.lexical[..i + 1][..i] == b.lexical[..i];
      if b.lexical[i].key !in base {
        base := base[b.lexical[i].key := b.lexical[i]];
      }
    }
    assert b.lexical[..|b.lexical|] == b.lexical;
  }

  method BuildCalibration(channel: seq<Candidate>, of: Channel) returns (out: map<Key, real>)
    ensures out == Calibrate(channel, of)
  {
    var s := Scores(channel, of);
    if s == [] { return map[]; }
    var lo, hi := Least(s), Greatest(s);
    out := map[];
    for i := 0 to |channel|
      invariant out == CalibrateWithin(channel[..i], of, lo, hi)
    {
      assert channel[..i + 1][..i] == channel[..i];
      if of(channel[i]).Some? {
        out := out[channel[i].key := Calibrated(of(channel[i]).value, lo, hi)];
      }
    }
    assert channel[..|channel|] == channel;
  }

  method ScoreOne(ghost b: Band, t: Tuning, f: Features, k: Key, denseRank: map<Key, nat>, lexicalRank: map<Key, nat>,
                  c: Candidate, vector: real, lexicalCal: real) returns (score: real)
    requires denseRank == Ranks(b.dense) && lexicalRank == Ranks(b.lexical)
    requires k in Base(b) && c == Base(b)[k]
    requires vector == Vector(b, k) && lexicalCal == Get(Calibrate(b.lexical, LEXICAL), k)
    ensures score == Score(b, t, f, k)
  {
    var maxRrf := (t.rrfDense + t.rrfLexical) / AtLeastOne(t.rrfK + 1) as real;
    var raw := 0.0;
    if k in denseRank {
      raw := raw + Reciprocal(t.rrfDense, t.rrfK, denseRank[k]);
    }
    if k in lexicalRank {
      raw := raw + Reciprocal(t.rrfLexical, t.rrfK, lexicalRank[k]);
    }
    var rrf := if maxRrf > 0.0 then raw / maxRrf else 0.0;
    var lexical := lexicalCal;
    if f.exact(c) {
      lexical := if lexical + 0.02 * t.exactBoost > 1.0 then 1.0 else lexical + 0.02 * t.exactBoost;
    }
    score := Blend(t, rrf, vector, lexical, c.importance, f.recency(c));
  }

  /** Score one band and sort it. */
  method RankPoolBand(raw: Band, t: Tuning, f: Features) returns (ranked: seq<Scored>)
    ensures ranked == RankBand(raw, t, f)
  {
    var b := Cut(raw, t);
    var denseRank := BuildRanks(b.dense);
    var lexicalRank := BuildRanks(b.lexical);
    var base := BuildBase(b);
    var denseCal := BuildCalibration(b.dense, DENSE);
    var lexicalCal := BuildCalibration(b.lexical, LEXICAL);
    ghost var table := ScoreTable(b, t, f);
    var out: seq<Scored>, todo := [], base.Keys;
    while todo != {}
      invariant todo <= base.Keys && NoDuplicates(out)
      invariant forall x :: x in out <==> x.key in table && x.key !in todo && table[x.key] == x.score
      decreases todo
    {
      var k :| k in todo;
      todo := todo - {k};
      var score := ScoreOne(b, t, f, k, denseRank, lexicalRank, base[k], Get(denseCal, k), Get(lexicalCal, k));
      assert score == table[k];
      assert Scored(k, score) !in out;
      out := out + [Scored(k, score)];
    }
    SortIsRankingOf(out, table);
    ranked := Sort(out);
  }

  method LowestScore(s: seq<Scored>) returns (m: real)
    requires s != [] && Ranked(s)
    ensures m == s[|s| - 1].score
  {
    m := s[0].score;
    for i := 1 to |s|
      invariant m == s[i - 1].score
    {
      assert Before(s[i - 1], s[i]);
      if s[i].score < m {
        m := s[i].score;
      }
    }
  }

  /** Lower every score to the floor and sort again. */
  method LowerAll(s: seq<Scored>, ghost table: map<Key, real>, floor: real) returns (r: seq<Scored>)
    requires IsRankingOf(s, table)
    ensures r == RankingOf(Lower(table, floor))
  {
    var out: seq<Scored> := [];
    for i := 0 to |s|
      invariant |out| == i
      invariant forall j :: 0 <= j < i ==> out[j] == Scored(s[j].key, if s[j].score < floor then s[j].score else floor)
    {
      out := out + [Scored(s[i].key, if s[i].score < floor then s[i].score else floor)];
    }
    RankedKeysDistinct(s, table);
    forall x ensures x in out <==> x.key in Lower(table, floor) && Lower(table, floor)[x.key] == x.score {
      if x in out {
        var j :| 0 <= j < |out| && out[j] == x;
        assert s[j] in s;
      }
      if x.key in table && Lower(table, floor)[x.key] == x.score {
        assert Scored(x.key, table[x.key]) in s;
        var j :| 0 <= j < |s| && s[j] == Scored(x.key, table[x.key]);
        assert out[j] == x;
      }
    }
    SortIsRankingOf(out, Lower(table, floor));
    r := Sort(out);
  }

  lemma RankedKeysDistinct(s: seq<Scored>, table: map<Key, real>)
    requires IsRankingOf(s, table)
    ensures forall i, j :: 0 <= i < j < |s| ==> s[i].key != s[j].key
  {
    forall i, j | 0 <= i < j < |s| ensures s[i].key != s[j].key {
      assert s[i] in s && s[j] in s && Before(s[i], s[j]);
      BeforeTotal(s[i], s[j]);
    }
  }

  /** The superseded band is ranked only when the active one is short. */
  method RankFallback(active: seq<Scored>, b: Band, t: Tuning, f: Features) returns (extra: seq<Scored>)
    requires Ranked(active)
    ensures extra == Fallback(active, ScoreTable(Cut(b, t), t, f), t.fallbackMin)
  {
    if |active| >= t.fallbackMin { return []; }
    extra := RankPoolBand(b, t, f);
    if active != [] {
      var lowest := LowestScore(active);
      extra := LowerAll(extra, ScoreTable(Cut(b, t), t, f), lowest - MARGIN);
    }
  }

  method RankCandidatePool(p: Pool, t: Tuning, f: Features, limit: int) returns (hits: seq<Hit>)
    ensures hits == RankPool(p, t, f, limit)
  {
    var active := RankPoolBand(p.active, t, f);
    var extra := RankFallback(active, p.superseded, t, f);
    hits := Assemble(active, extra, limit);
  }

  // ---------------------------------------------------------------------------
  // The contract of a ranked pool
  // ---------------------------------------------------------------------------

  ghost function Lowest(s: seq<Scored>): real
    requires s != []
  {
    s[|s| - 1].score
  }

  lemma {:induction false} RankedScores(s: seq<Scored>)
    requires Ranked(s)
    ensures forall i, j :: 0 <= i <= j < |s| ==> s[i].score >= s[j].score
  {
    forall i, j | 0 <= i < j < |s| ensures s[i].score >= s[j].score {
      assert Before(s[i], s[j]);
    }
  }

  /** The superseded hits sit at least the margin below every active score; there are
      none unless the active band is short, and then there are all of them. */
  lemma FallbackMeaning(active: seq<Scored>, table: map<Key, real>, fallbackMin: int)
    requires Ranked(active)
    ensures var extra := Fallback(active, table, fallbackMin);
            && Ranked(extra)
            && (|active| >= fallbackMin ==> extra == [])
            && (|active| < fallbackMin ==> |extra| == |table|)
            && (forall y :: y in extra ==> y.key in table && y.score <= table[y.key])
            && (forall x, y :: x in active && y in extra ==> y.score <= x.score - MARGIN)
  {
    if |active| < fallbackMin {
      var shown := if active == [] then table else Lower(table, Lowest(active) - MARGIN);
      var extra := Fallback(active, table, fallbackMin);
      assert IsRankingOf(extra, shown);
      assert shown.Keys == table.Keys && |shown| == |shown.Keys| && |table| == |table.Keys|;
      RankingSize(extra, shown);
      RankedScores(active);
    }
  }

  /** The superseded scores as the pool shows them: none when enough is active, else each
      lowered to the margin below the lowest active score, when there is one. */
  ghost function Shown(active: seq<Scored>, table: map<Key, real>, fallbackMin: int): map<Key, real> {
    if |active| >= fallbackMin then map[]
    else if active == [] then table
    else Lower(table, Lowest(active) - MARGIN)
  }

  function Entries(hits: seq<Hit>): seq<Scored> {
    seq(|hits|, i requires 0 <= i < |hits| => hits[i].entry)
  }

  function HeadSize(active: seq<Scored>, limit: int): nat {
    if |active| < AtLeastOne(limit) then |active| else AtLeastOne(limit)
  }

  /** The Active hits in order, as many as the limit admits, and in the room that is left
      the best of the Superseded ones, which are there only when Active is short; every
      Superseded score at least the margin below every Active one; scores never rising
      down the list. */
  ghost predicate Contract(hits: seq<Hit>, active: seq<Scored>, table: map<Key, real>, fallbackMin: int, limit: int) {
    var head := HeadSize(active, limit);
    && head <= |hits|
    && (forall i :: 0 <= i < head ==> hits[i] == Hit(active[i], false))
    && (forall i :: head <= i < |hits| ==> hits[i].superseded)
    && IsTop(Entries(hits[head..]), Shown(active, table, fallbackMin), AtLeastOne(limit) - head)
    && (forall i, j :: 0 <= i < head <= j < |hits| ==> hits[j].entry.score <= hits[i].entry.score - MARGIN)
    && (forall i, j :: 0 <= i < j < |hits| ==> hits[i].entry.score >= hits[j].entry.score)
  }

  lemma AssembleParts(active: seq<Scored>, extra: seq<Scored>, limit: int)
    ensures var hits, head := Assemble(active, extra, limit), HeadSize(active, limit);
            && head <= |hits|
            && (forall i :: 0 <= i < head ==> hits[i] == Hit(active[i], false))
            && (forall i :: head <= i < |hits| ==> hits[i].superseded && |active| == head)
            && Entries(hits[head..]) == Take(extra, AtLeastOne(limit) - head)
  {
    var hits, head := Assemble(active, extra, limit), HeadSize(active, limit);
    var tail := Take(extra, AtLeastOne(limit) - head);
    assert |hits| == head + |tail|;
    forall i | 0 <= i < |hits| ensures hits[i] == if i < head then Hit(active[i], false) else Hit(tail[i - head], true) {
    }
  }

  lemma AssembleContract(active: seq<Scored>, table: map<Key, real>, fallbackMin: int, limit: int)
    requires Ranked(active)
    ensures Contract(Assemble(active, Fallback(active, table, fallbackMin), limit), active, table, fallbackMin, limit)
  {
    var extra, shown := Fallback(active, table, fallbackMin), Shown(active, table, fallbackMin);
    var hits, head := Assemble(active, extra, limit), HeadSize(active, limit);
    AssembleParts(active, extra, limit);
    FallbackRanks(active, table, fallbackMin);
    TopMeaning(shown, AtLeastOne(limit) - head);
    AssembleOrdered(hits, active, table, fallbackMin, head);
  }

  lemma AssembleOrdered(hits: seq<Hit>, active: seq<Scored>, table: map<Key, real>, fallbackMin: int, head: nat)
    requires Ranked(active) && head <= |hits| && head <= |active|
    requires forall i :: 0 <= i < head ==> hits[i] == Hit(active[i], false)
    requires Ranked(Entries(hits[head..]))
    requires forall y :: y in Entries(hits[head..]) ==> y in Fallback(active, table, fallbackMin)
    ensures forall i, j :: 0 <= i < head <= j < |hits| ==> hits[j].entry.score <= hits[i].entry.score - MARGIN
    ensures forall i, j :: 0 <= i < j < |hits| ==> hits[i].entry.score >= hits[j].entry.score
  {
    var tail, extra := Entries(hits[head..]), Fallback(active, table, fallbackMin);
    FallbackMeaning(active, table, fallbackMin);
    RankedScores(active);
    RankedScores(tail);
    forall i, j | 0 <= i < head <= j < |hits| ensures hits[j].entry.score <= hits[i].entry.score - MARGIN {
      assert tail[j - head] in extra && active[i] in active;
    }
    forall i, j | 0 <= i < j < |hits| ensures hits[i].entry.score >= hits[j].entry.score {
      if i >= head { assert tail[i - head] == hits[i].entry && tail[j - head] == hits[j].entry; }
    }
  }

  lemma FallbackRanks(active: seq<Scored>, table: map<Key, real>, fallbackMin: int)
    ensures Fallback(active, table, fallbackMin) == RankingOf(Shown(active, table, fallbackMin))
  {
    if |active| >= fallbackMin {
      var none := RankingOf(map[]);
      RankingSize(none, map[]);
    }
  }

  lemma PoolContract(p: Pool, t: Tuning, f: Features, limit: int)
    ensures Contract(RankPool(p, t, f, limit), RankBand(p.active, t, f), ScoreTable(Cut(p.superseded, t), t, f),
                     t.fallbackMin, limit)
  {
    AssembleContract(RankBand(p.active, t, f), ScoreTable(Cut(p.superseded, t), t, f), t.fallbackMin, limit);
  }

  /** No other list meets the contract. */
  lemma ContractUnique(a: seq<Hit>, b: seq<Hit>, active: seq<Scored>, table: map<Key, real>, fallbackMin: int, limit: int)
    requires Contract(a, active, table, fallbackMin, limit) && Contract(b, active, table, fallbackMin, limit)
    ensures a == b
  {
    var head := HeadSize(active, limit);
    var s, t := Entries(a[head..]), Entries(b[head..]);
    TopUnique(s, t, Shown(active, table, fallbackMin), AtLeastOne(limit) - head);
    assert |s| == |a| - head && |t| == |b| - head;
    forall i | 0 <= i < |a| ensures a[i] == b[i] {
      if i >= head {
        assert s[i - head] == a[i].entry && t[i - head] == b[i].entry;
      }
    }
  }

  lemma AssembleDistinct(active: seq<Scored>, extra: seq<Scored>, limit: int)
    requires forall i, j :: 0 <= i < j < |active| ==> active[i].key != active[j].key
    requires forall i, j :: 0 <= i < j < |extra| ==> extra[i].key != extra[j].key
    requires forall i, j :: 0 <= i < |active| && 0 <= j < |extra| ==> active[i].key != extra[j].key
    ensures var hits := Assemble(active, extra, limit);
            forall i, j :: 0 <= i < j < |hits| ==> hits[i].entry.key != hits[j].entry.key
  {
  }

  function BandKeys(b: Band): set<Key> {
    Keys(b.dense) + Keys(b.lexical)
  }

  /** `c` is the last entry of the channel with its key. */
  ghost predicate IsLast(channel: seq<Candidate>, c: Candidate) {
    exists i :: 0 <= i < |channel| && channel[i] == c && forall j :: i < j < |channel| ==> channel[j].key != c.key
  }

  ghost predicate IsFirst(channel: seq<Candidate>, c: Candidate) {
    exists i :: 0 <= i < |channel| && channel[i] == c && forall j :: 0 <= j < i ==> channel[j].key != c.key
  }

  lemma {:induction false} LastOfMeaning(channel: seq<Candidate>)
    ensures LastOf(channel).Keys == Keys(channel)
    ensures forall k :: k in LastOf(channel) ==> LastOf(channel)[k].key == k && IsLast(channel, LastOf(channel)[k])
    decreases |channel|
  {
    if channel != [] {
      var n := |channel| - 1;
      LastOfMeaning(channel[..n]);
      KeysMore(channel);
      forall k | k in LastOf(channel) ensures LastOf(channel)[k].key == k && IsLast(channel, LastOf(channel)[k]) {
        if k == channel[n].key {
          assert channel[n] == LastOf(channel)[k];
        } else {
          var c := LastOf(channel[..n])[k];
          assert IsLast(channel[..n], c);
          var i :| 0 <= i < n && channel[..n][i] == c && forall j :: i < j < n ==> channel[..n][j].key != c.key;
          forall j | i < j < |channel| ensures channel[j].key != c.key {
            assert j < n ==> channel[..n][j] == channel[j];
          }
        }
      }
    }
  }

  lemma KeysMore(channel: seq<Candidate>)
    requires channel != []
    ensures Keys(channel) == Keys(channel[..|channel| - 1]) + {channel[|channel| - 1].key}
  {
    var n := |channel| - 1;
    assert channel == channel[..n] + [channel[n]];
    assert channel[n] in channel;
  }

  lemma {:induction false} AddMissingMeaning(base: map<Key, Candidate>, channel: seq<Candidate>)
    ensures AddMissing(base, channel).Keys == base.Keys + Keys(channel)
    ensures forall k :: k in base ==> AddMissing(base, channel)[k] == base[k]
    ensures forall k :: k in Keys(channel) && k !in base ==>
              AddMissing(base, channel)[k].key == k && IsFirst(channel, AddMissing(base, channel)[k])
    decreases |channel|
  {
    if channel != [] {
      var n := |channel| - 1;
      AddMissingMeaning(base, channel[..n]);
      KeysMore(channel);
      forall k | k in Keys(channel) && k !in base
        ensures AddMissing(base, channel)[k].key == k && IsFirst(channel, AddMissing(base, channel)[k])
      {
        if k in Keys(channel[..n]) {
          FirstKept(channel, AddMissing(base, channel)[k]);
        } else {
          assert channel[n] == AddMissing(base, channel)[k];
          FirstNew(channel);
        }
      }
    }
  }

  lemma FirstKept(channel: seq<Candidate>, c: Candidate)
    requires channel != [] && IsFirst(channel[..|channel| - 1], c)
    ensures IsFirst(channel, c)
  {
    var prior := channel[..|channel| - 1];
    var i :| 0 <= i < |prior| && prior[i] == c && forall j :: 0 <= j < i ==> prior[j].key != c.key;
    assert channel[i] == c;
    forall j | 0 <= j < i ensures channel[j].key != c.key {
      assert prior[j] == channel[j];
    }
  }

  lemma FirstNew(channel: seq<Candidate>)
    requires channel != [] && channel[|channel| - 1].key !in Keys(channel[..|channel| - 1])
    ensures IsFirst(channel, channel[|channel| - 1])
  {
    var n := |channel| - 1;
    forall j | 0 <= j < n ensures channel[j].key != channel[n].key {
      assert channel[..n][j] == channel[j] && channel[j] in channel[..n];
    }
  }

  /** A key is ranked exactly when a channel holds it; its last dense entry stands for it,
      or its first lexical one when the dense channel has none. */
  lemma BaseMeaning(b: Band)
    ensures Base(b).Keys == BandKeys(b)
    ensures forall k :: k in Keys(b.dense) ==> Base(b)[k].key == k && IsLast(b.dense, Base(b)[k])
    ensures forall k :: k in Keys(b.lexical) && k !in Keys(b.dense) ==>
              Base(b)[k].key == k && IsFirst(b.lexical, Base(b)[k])
  {
    LastOfMeaning(b.dense);
    AddMissingMeaning(LastOf(b.dense), b.lexical);
  }

  /** Bands without a common candidate give a duplicate-free list. */
  lemma PoolDistinct(p: Pool, t: Tuning, f: Features, limit: int)
    requires BandKeys(Cut(p.active, t)) !! BandKeys(Cut(p.superseded, t))
    ensures var hits := RankPool(p, t, f, limit);
            forall i, j :: 0 <= i < j < |hits| ==> hits[i].entry.key != hits[j].entry.key
  {
    var active, at := RankBand(p.active, t, f), ScoreTable(Cut(p.active, t), t, f);
    var table := ScoreTable(Cut(p.superseded, t), t, f);
    var extra := Fallback(active, table, t.fallbackMin);
    BaseMeaning(Cut(p.active, t));
    BaseMeaning(Cut(p.superseded, t));
    RankedKeysDistinct(active, at);
    FallbackKeys(active, table, t.fallbackMin);
    forall i, j | 0 <= i < |active| && 0 <= j < |extra| ensures active[i].key != extra[j].key {
      assert active[i] in active && extra[j] in extra;
      assert active[i].key in at && extra[j].key in table;
    }
    AssembleDistinct(active, extra, limit);
  }

  lemma FallbackKeys(active: seq<Scored>, table: map<Key, real>, fallbackMin: int)
    ensures var extra := Fallback(active, table, fallbackMin);
            && (forall i, j :: 0 <= i < j < |extra| ==> extra[i].key != extra[j].key)
            && (forall y :: y in extra ==> y.key in table)
  {
    if |active| < fallbackMin {
      var shown := if active == [] then table else Lower(table, Lowest(active) - MARGIN);
      RankedKeysDistinct(Fallback(active, table, fallbackMin), shown);
    }
  }
}
