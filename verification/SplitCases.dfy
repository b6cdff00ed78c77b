/** The chronological train / validation / test split of evaluation cases. */
module SplitCases {
  import opened Dictionaries
  import opened Options
  import opened Rounding
  import opened Sequences

  /** The sort key of a timestamp; a missing one sorts last. */
  datatype TimeKey = At(time: real) | Undated

  predicate NotLater(a: TimeKey, b: TimeKey) {
    b.Undated? || (a.At? && a.time <= b.time)
  }

  /** The split tells representatives apart by object identity: `id`. */
  datatype Case = Case(id: nat, query: string, time: TimeKey)

  datatype Bucket = Train | Validation | Test

  // ---------------------------------------------------------------------------
  // Groups and representatives
  // ---------------------------------------------------------------------------

  function Asking(cases: seq<Case>, query: string): (r: seq<Case>)
    ensures forall c :: c in r <==> c in cases && c.query == query
  {
    if cases == [] then [] else
      var n := |cases| - 1;
      Asking(cases[..n], query) + if cases[n].query == query then [cases[n]] else []
  }

  lemma {:induction false} AskingCounts(cases: seq<Case>, query: string, c: Case)
    ensures multiset(Asking(cases, query))[c] == if c.query == query then multiset(cases)[c] else 0
    decreases |cases|
  {
    if cases != [] {
      var n := |cases| - 1;
      AskingCounts(cases[..n], query, c);
      assert cases == cases[..n] + [cases[n]];
    }
  }

  /** One group per query of `cases`, queries in order of first appearance. */
  ghost predicate Grouped(order: seq<string>, groups: map<string, seq<Case>>, cases: seq<Case>) {
    && NoDuplicates(order)
    && (forall q :: q in order <==> q in groups)
    && (forall q :: q in groups <==> Asking(cases, q) != [])
    && (forall q :: q in groups ==> groups[q] == Asking(cases, q))
  }

  /** `a` is asked before `b` is asked for the first time. */
  ghost predicate FirstBefore(cases: seq<Case>, a: string, b: string) {
    exists m :: 0 <= m < |cases| && cases[m].query == a && forall l :: 0 <= l <= m ==> cases[l].query != b
  }

  ghost predicate InFirstOrder(order: seq<string>, cases: seq<Case>) {
    forall i, j :: 0 <= i < j < |order| ==> FirstBefore(cases, order[i], order[j])
  }

  lemma FirstBeforeMore(cases: seq<Case>, c: Case, a: string, b: string)
    requires FirstBefore(cases, a, b)
    ensures FirstBefore(cases + [c], a, b)
  {
    var m :| 0 <= m < |cases| && cases[m].query == a && forall l :: 0 <= l <= m ==> cases[l].query != b;
    assert (cases + [c])[m] == cases[m];
    forall l | 0 <= l <= m ensures (cases + [c])[l].query != b {
      assert (cases + [c])[l] == cases[l];
    }
  }

  lemma NewQueryLast(order: seq<string>, groups: map<string, seq<Case>>, cases: seq<Case>, c: Case, q: string)
    requires Grouped(order, groups, cases) && q in order && c.query !in groups
    ensures FirstBefore(cases + [c], q, c.query)
  {
    assert Asking(cases, c.query) == [] && Asking(cases, q) != [];
    var x := Asking(cases, q)[0];
    assert x in Asking(cases, q);
    var m :| 0 <= m < |cases| && cases[m] == x;
    forall l | 0 <= l <= m ensures cases[l].query != c.query {
      assert cases[l] in cases;
    }
    assert FirstBefore(cases, q, c.query);
    FirstBeforeMore(cases, c, q, c.query);
  }

  lemma FirstOrderStep(order: seq<string>, groups: map<string, seq<Case>>, cases: seq<Case>, c: Case)
    requires Grouped(order, groups, cases) && InFirstOrder(order, cases)
    ensures InFirstOrder(KeysWith(order, groups, c.query), cases + [c])
  {
    var more := KeysWith(order, groups, c.query);
    forall i, j | 0 <= i < j < |more| ensures FirstBefore(cases + [c], more[i], more[j]) {
      if j < |order| {
        FirstBeforeMore(cases, c, order[i], order[j]);
      } else {
        assert more[i] == order[i] && order[i] in order;
        NewQueryLast(order, groups, cases, c, order[i]);
      }
    }
  }

  method GroupByQuery(cases: seq<Case>) returns (order: seq<string>, groups: map<string, seq<Case>>)
    ensures Grouped(order, groups, cases) && InFirstOrder(order, cases)
  {
    order, groups := [], map[];
    for i := 0 to |cases|
      invariant Grouped(order, groups, cases[..i]) && InFirstOrder(order, cases[..i])
    {
      assert cases[..i + 1] == cases[..i] + [cases[i]];
      FirstOrderStep(order, groups, cases[..i], cases[i]);
      GroupStep(order, groups, cases[..i], cases[i]);
      order, groups := KeysWith(order, groups, cases[i].query), GroupsWith(groups, cases[i].query, cases[i]);
    }
    assert cases[..|cases|] == cases;
  }

  lemma GroupStep(order: seq<string>, groups: map<string, seq<Case>>, cases: seq<Case>, c: Case)
    requires Grouped(order, groups, cases)
    ensures Grouped(KeysWith(order, groups, c.query), GroupsWith(groups, c.query, c), cases + [c])
  {
    var more := GroupsWith(groups, c.query, c);
    assert (cases + [c])[..|cases|] == cases;
    forall q ensures Asking(cases + [c], q) == Asking(cases, q) + if c.query == q then [c] else [] {}
    forall q ensures q in more <==> Asking(cases + [c], q) != [] {
      assert q != c.query ==> Asking(cases + [c], q) == Asking(cases, q);
    }
  }

  /** The first case with the earliest time. */
  method Earliest(members: seq<Case>) returns (rep: Case)
    requires members != []
    ensures rep in members && forall m :: m in members ==> NotLater(rep.time, m.time)
    ensures exists k :: 0 <= k < |members| && members[k] == rep
              && forall j :: 0 <= j < k ==> !NotLater(members[j].time, rep.time)
  {
    rep := members[0];
    ghost var at := 0;
    for i := 1 to |members|
      invariant at < i && members[at] == rep
      invariant forall j :: 0 <= j < i ==> NotLater(rep.time, members[j].time)
      invariant forall j :: 0 <= j < at ==> !NotLater(members[j].time, rep.time)
    {
      if !NotLater(rep.time, members[i].time) {
        rep, at := members[i], i;
      }
    }
  }

  /** `reps[i]` is an earliest case of the i-th query. */
  ghost predicate Represent(reps: seq<Case>, order: seq<string>, cases: seq<Case>) {
    && |reps| == |order|
    && forall i :: 0 <= i < |reps| ==> IsRepresentative(reps[i], order[i], cases)
  }

  ghost predicate IsRepresentative(rep: Case, query: string, cases: seq<Case>) {
    && rep in cases && rep.query == query
    && forall c :: c in cases && c.query == query ==> NotLater(rep.time, c.time)
  }

  function InsertByTime(c: Case, s: seq<Case>): (r: seq<Case>)
    ensures multiset(r) == multiset(s) + multiset{c}
  {
    if s == [] || NotLater(c.time, s[0].time) then [c] + s
    else
      assert s == [s[0]] + s[1..];
      [s[0]] + InsertByTime(c, s[1..])
  }

  /** The stable library sort by time key. */
  function SortByTime(s: seq<Case>): (r: seq<Case>)
    ensures multiset(r) == multiset(s) && |r| == |s|
  {
    if s == [] then [] else
      assert s == [s[0]] + s[1..];
      var r := InsertByTime(s[0], SortByTime(s[1..]));
      assert |multiset(r)| == |multiset(s)|;
      r
  }

  ghost predicate Chronological(s: seq<Case>) {
    forall i, j :: 0 <= i < j < |s| ==> NotLater(s[i].time, s[j].time)
  }

  lemma {:induction false} InsertChronological(c: Case, s: seq<Case>)
    requires Chronological(s)
    ensures Chronological(InsertByTime(c, s))
    decreases |s|
  {
    if s != [] && !NotLater(c.time, s[0].time) {
      InsertChronological(c, s[1..]);
      var rest := InsertByTime(c, s[1..]);
      forall j | 0 <= j < |rest| ensures NotLater(s[0].time, rest[j].time) {
        assert rest[j] in multiset(rest);
        if rest[j] != c {
          assert rest[j] in s[1..];
        }
      }
    }
  }

  lemma {:induction false} SortChronological(s: seq<Case>)
    ensures Chronological(SortByTime(s))
    decreases |s|
  {
    if s != [] {
      SortChronological(s[1..]);
      InsertChronological(s[0], SortByTime(s[1..]));
    }
  }

  /** Cases of one time keep the order they came in. */
  ghost predicate TiesKept(sorted: seq<Case>, s: seq<Case>) {
    forall i, j :: 0 <= i < j < |sorted| && NotLater(sorted[j].time, sorted[i].time) ==>
      InOrderIn(s, sorted[i], sorted[j])
  }

  ghost predicate InOrderIn(s: seq<Case>, a: Case, b: Case) {
    exists p, q :: 0 <= p < q < |s| && s[p] == a && s[q] == b
  }

  lemma InOrderLonger(c: Case, s: seq<Case>, a: Case, b: Case)
    requires InOrderIn(s, a, b)
    ensures InOrderIn([c] + s, a, b)
  {
    var p, q :| 0 <= p < q < |s| && s[p] == a && s[q] == b;
    assert ([c] + s)[p + 1] == a && ([c] + s)[q + 1] == b;
  }

  lemma FirstInOrder(c: Case, s: seq<Case>, b: Case)
    requires b in s
    ensures InOrderIn([c] + s, c, b)
  {
    var q :| 0 <= q < |s| && s[q] == b;
    assert ([c] + s)[0] == c && ([c] + s)[q + 1] == b;
  }

  /** Where a case is inserted: what stands before it is strictly earlier. */
  lemma {:induction false} InsertedAt(c: Case, s: seq<Case>) returns (at: nat)
    ensures at <= |s| && InsertByTime(c, s) == s[..at] + [c] + s[at..]
    ensures forall i :: 0 <= i < at ==> !NotLater(c.time, s[i].time)
    decreases |s|
  {
    at := 0;
    if s != [] && !NotLater(c.time, s[0].time) {
      var k := InsertedAt(c, s[1..]);
      at := k + 1;
      assert s[..at] == [s[0]] + s[1..][..k] && s[at..] == s[1..][k..];
    }
  }

  lemma InsertKeepsTies(c: Case, sorted: seq<Case>, s: seq<Case>)
    requires TiesKept(sorted, s) && forall x :: x in sorted ==> x in s
    ensures TiesKept(InsertByTime(c, sorted), [c] + s)
  {
    var at := InsertedAt(c, sorted);
    var r := InsertByTime(c, sorted);
    forall i, j | 0 <= i < j < |r| && NotLater(r[j].time, r[i].time) ensures InOrderIn([c] + s, r[i], r[j]) {
      if i == at {
        assert r[j] == sorted[j - 1] && sorted[j - 1] in sorted;
        FirstInOrder(c, s, r[j]);
      } else if j != at {
        var p, q := if i < at then i else i - 1, if j < at then j else j - 1;
        assert r[i] == sorted[p] && r[j] == sorted[q];
        InOrderLonger(c, s, r[i], r[j]);
      }
    }
  }

  /** The sort is stable. */
  lemma {:induction false} SortStable(s: seq<Case>)
    ensures TiesKept(SortByTime(s), s)
    decreases |s|
  {
    if s != [] {
      SortStable(s[1..]);
      forall x | x in SortByTime(s[1..]) ensures x in s[1..] {
        assert x in multiset(SortByTime(s[1..]));
      }
      InsertKeepsTies(s[0], SortByTime(s[1..]), s[1..]);
      assert [s[0]] + s[1..] == s;
    }
  }

  // ---------------------------------------------------------------------------
  // Cut points
  // ---------------------------------------------------------------------------

  function Max(a: int, b: int): int {
    if a < b then b else a
  }

  /** Where training and validation end among `n` representatives. */
  function Cuts(n: nat, train: real, validation: real, test: real): (c: (nat, nat)) {
    if train + validation + test <= 0.0 then (n, n)
    else CutsAt(n, n as real * train, n as real * (train + validation))
  }

  /** The same from the shares of the queries that training, and it with validation, ask for. */
  function CutsAt(n: nat, train: real, validation: real): (nat, nat) {
    var trainEnd := Max(1, Round(train));
    var end := if n >= 3 then Max(trainEnd + 1, Round(validation)) else trainEnd;
    (trainEnd, if end < n then end else n)
  }

  function BucketAt(i: nat, cuts: (nat, nat)): Bucket {
    if i < cuts.0 then Train else if i < cuts.1 then Validation else Test
  }

  // ---------------------------------------------------------------------------
  // The split
  // ---------------------------------------------------------------------------

  /** `part` holds exactly the occurrences of cases whose query has bucket `b`. */
  ghost predicate Holds(part: seq<Case>, cases: seq<Case>, bucket: map<string, Bucket>, b: Bucket) {
    forall c :: multiset(part)[c] ==
      if c.query in bucket && bucket[c.query] == b then multiset(cases)[c] else 0
  }

  /** Buckets are in the order of the queries' earliest times. */
  ghost predicate InTimeOrder(cases: seq<Case>, bucket: map<string, Bucket>) {
    forall a, b :: a in cases && b in cases && a.query in bucket && b.query in bucket
      && IsRepresentative(a, a.query, cases) && IsRepresentative(b, b.query, cases)
      && Earlier(bucket[a.query], bucket[b.query])
      ==> NotLater(a.time, b.time)
  }

  /** Among queries first asked at one time the earlier part has those that come first. */
  ghost predicate TiesByFirst(cases: seq<Case>, bucket: map<string, Bucket>) {
    forall a: Case, b: Case :: IsRepresentative(a, a.query, cases) && IsRepresentative(b, b.query, cases)
      && a.query in bucket && b.query in bucket && Earlier(bucket[a.query], bucket[b.query])
      && NotLater(b.time, a.time)
      ==> FirstBefore(cases, a.query, b.query)
  }

  ghost predicate IsSplit(p: Parts, cases: seq<Case>, bucket: map<string, Bucket>) {
    && (forall c :: c in cases ==> c.query in bucket)
    && Holds(p.train, cases, bucket, Train)
    && Holds(p.validation, cases, bucket, Validation)
    && Holds(p.test, cases, bucket, Test)
    && InTimeOrder(cases, bucket)
  }

  ghost function Queries(cases: seq<Case>): set<string> {
    set c | c in cases :: c.query
  }

  ghost function FirstQueries(sorted: seq<Case>, m: nat): set<string>
    requires m <= |sorted|
  {
    set i | 0 <= i < m :: sorted[i].query
  }

  ghost function QueriesIn(bucket: map<string, Bucket>, b: Bucket): set<string> {
    set q | q in bucket && bucket[q] == b
  }

  /** The parts have as many queries as the cuts say. */
  ghost predicate Sized(bucket: map<string, Bucket>, cases: seq<Case>, cuts: (nat, nat)) {
    && bucket.Keys == Queries(cases)
    && |QueriesIn(bucket, Train)| == (if cuts.0 < |bucket| then cuts.0 else |bucket|)
    && |QueriesIn(bucket, Train)| + |QueriesIn(bucket, Validation)| == cuts.1
  }

  predicate Earlier(a: Bucket, b: Bucket) {
    (a == Train && b != Train) || (a == Validation && b == Test)
  }

  ghost predicate DistinctQueries(s: seq<Case>) {
    forall i, j :: 0 <= i < j < |s| ==> s[i].query != s[j].query
  }

  lemma {:induction false} CountedOnce(s: seq<Case>, x: Case)
    requires DistinctQueries(s)
    ensures multiset(s)[x] <= 1
    decreases |s|
  {
    if s != [] {
      var n := |s| - 1;
      CountedOnce(s[..n], x);
      assert s == s[..n] + [s[n]];
      assert s[n] !in s[..n];
    }
  }

  lemma CountedTwice(s: seq<Case>, i: nat, j: nat)
    requires i < j < |s| && s[i] == s[j]
    ensures multiset(s)[s[i]] >= 2
  {
    assert s == s[..j] + s[j..];
    assert s[i] in s[..j] && s[i] in s[j..];
  }

  /** Sorting keeps one representative per query. */
  lemma SortedDistinct(reps: seq<Case>)
    requires DistinctQueries(reps)
    ensures DistinctQueries(SortByTime(reps))
    ensures forall c :: c in SortByTime(reps) <==> c in reps
  {
    var s := SortByTime(reps);
    forall c ensures c in s <==> c in reps {
      assert c in multiset(s) <==> c in multiset(reps);
    }
    forall i, j | 0 <= i < j < |s| ensures s[i].query != s[j].query {
      assert s[i] in reps && s[j] in reps;
      CountedOnce(reps, s[i]);
      if s[i] == s[j] {
        CountedTwice(s, i, j);
      }
    }
  }

  ghost predicate At(sorted: seq<Case>, i: nat, query: string) {
    i < |sorted| && sorted[i].query == query
  }

  /** The bucket of every query that has a representative. */
  ghost function Assigned(sorted: seq<Case>, cuts: (nat, nat)): map<string, Bucket> {
    map q | q in (set c | c in sorted :: c.query) :: BucketAt(PositionOf(sorted, q), cuts)
  }

  ghost function PositionOf(sorted: seq<Case>, query: string): nat
    requires query in set c | c in sorted :: c.query
  {
    var c :| c in sorted && c.query == query;
    var i: nat :| i < |sorted| && sorted[i] == c;
    i
  }

  lemma AssignedAt(sorted: seq<Case>, cuts: (nat, nat), i: nat)
    requires DistinctQueries(sorted) && i < |sorted|
    ensures sorted[i].query in Assigned(sorted, cuts)
    ensures Assigned(sorted, cuts)[sorted[i].query] == BucketAt(i, cuts)
  {
    var q := sorted[i].query;
    assert sorted[i] in sorted;
    assert At(sorted, PositionOf(sorted, q), q);
  }

  /** The first member that is a representative. */
  method FindRepresentative(members: seq<Case>, reps: set<Case>) returns (rep: Option<Case>)
    ensures rep.Some? ==> rep.value in members && rep.value in reps
    ensures rep.None? ==> forall m :: m in members ==> m !in reps
  {
    for i := 0 to |members|
      invariant forall m :: m in members[..i] ==> m !in reps
    {
      assert members[..i + 1] == members[..i] + [members[i]];
      if members[i] in reps { return Some(members[i]); }
    }
    assert members[..|members|] == members;
    rep := None;
  }

  /** `part` holds the cases of bucket `b` among the queries seen so far. */
  ghost predicate HoldsSoFar(part: seq<Case>, cases: seq<Case>, seen: seq<string>, bucket: map<string, Bucket>, b: Bucket) {
    forall c :: multiset(part)[c] ==
      if c.query in seen && c.query in bucket && bucket[c.query] == b then multiset(cases)[c] else 0
  }

  lemma HoldsMore(part: seq<Case>, cases: seq<Case>, seen: seq<string>, q: string, bucket: map<string, Bucket>, b: Bucket)
    requires HoldsSoFar(part, cases, seen, bucket, b) && q !in seen && q in bucket
    ensures HoldsSoFar(if bucket[q] == b then part + Asking(cases, q) else part, cases, seen + [q], bucket, b)
  {
    var more := if bucket[q] == b then part + Asking(cases, q) else part;
    forall c: Case ensures multiset(more)[c] ==
      if c.query in seen + [q] && c.query in bucket && bucket[c.query] == b then multiset(cases)[c] else 0
    {
      AskingCounts(cases, q, c);
    }
  }

  ghost predicate HasRepresentative(members: seq<Case>, sorted: seq<Case>) {
    exists m :: m in members && m in sorted
  }

  /** The bucket of a group: that of the one set its representative is in. */
  method Route(members: seq<Case>, sorted: seq<Case>, cuts: (nat, nat), ghost q: string) returns (b: Bucket)
    requires DistinctQueries(sorted) && (cuts.0 <= cuts.1 || |sorted| <= cuts.1)
    requires forall m :: m in members ==> m.query == q
    requires HasRepresentative(members, sorted)
    ensures q in Assigned(sorted, cuts) && b == Assigned(sorted, cuts)[q]
  {
    var repTrain := set i | 0 <= i < |sorted| && i < cuts.0 :: sorted[i];
    var repValidation := set i | 0 <= i < |sorted| && cuts.0 <= i < cuts.1 :: sorted[i];
    var repTest := set i | 0 <= i < |sorted| && cuts.1 <= i :: sorted[i];
    var found := FindRepresentative(members, repTrain + repValidation + repTest);
    assert found.Some? by {
      var m :| m in members && m in sorted;
      var k: nat :| k < |sorted| && sorted[k] == m;
      assert m in repTrain + repValidation + repTest;
    }
    var rep := found.value;
    ghost var at: nat :| at < |sorted| && sorted[at] == rep;
    AssignedAt(sorted, cuts, at);
    b := if rep in repTrain then Train else if rep in repValidation then Validation else Test;
  }

  datatype Parts = Parts(train: seq<Case>, validation: seq<Case>, test: seq<Case>)

  function Put(p: Parts, b: Bucket, group: seq<Case>): Parts {
    match b
    case Train => p.(train := p.train + group)
    case Validation => p.(validation := p.validation + group)
    case Test => p.(test := p.test + group)
  }

  ghost predicate AllHold(p: Parts, cases: seq<Case>, seen: seq<string>, bucket: map<string, Bucket>) {
    && HoldsSoFar(p.train, cases, seen, bucket, Train)
    && HoldsSoFar(p.validation, cases, seen, bucket, Validation)
    && HoldsSoFar(p.test, cases, seen, bucket, Test)
  }

  lemma PutHolds(p: Parts, cases: seq<Case>, seen: seq<string>, q: string, bucket: map<string, Bucket>)
    requires AllHold(p, cases, seen, bucket) && q !in seen && q in bucket
    ensures AllHold(Put(p, bucket[q], Asking(cases, q)), cases, seen + [q], bucket)
  {
    HoldsMore(p.train, cases, seen, q, bucket, Train);
    HoldsMore(p.validation, cases, seen, q, bucket, Validation);
    HoldsMore(p.test, cases, seen, q, bucket, Test);
  }

  lemma NothingHeld(cases: seq<Case>, bucket: map<string, Bucket>)
    ensures AllHold(Parts([], [], []), cases, [], bucket)
  {
  }

  lemma NextUnseen(order: seq<string>, i: nat)
    requires NoDuplicates(order) && i < |order|
    ensures order[..i + 1] == order[..i] + [order[i]]
    ensures order[i] in order && order[i] !in order[..i]
  {
  }

  /** Route every group to the bucket of its representative. */
  method Distribute(cases: seq<Case>, order: seq<string>, groups: map<string, seq<Case>>, sorted: seq<Case>, cuts: (nat, nat))
    returns (p: Parts)
    requires NoDuplicates(order) && DistinctQueries(sorted)
    requires forall q :: q in order ==> q in groups && groups[q] == Asking(cases, q)
    requires forall q :: q in order ==> HasRepresentative(groups[q], sorted)
    requires cuts.0 <= cuts.1 || |sorted| <= cuts.1
    ensures AllHold(p, cases, order, Assigned(sorted, cuts))
  {
    p := Parts([], [], []);
    NothingHeld(cases, Assigned(sorted, cuts));
    assert order[..0] == [];
    for i := 0 to |order|
      invariant AllHold(p, cases, order[..i], Assigned(sorted, cuts))
    {
      NextUnseen(order, i);
      p := Add(p, cases, order[..i], order[i], groups[order[i]], sorted, cuts);
    }
    assert order[..|order|] == order;
  }

  method Add(p: Parts, ghost cases: seq<Case>, ghost seen: seq<string>, ghost q: string, members: seq<Case>,
             sorted: seq<Case>, cuts: (nat, nat)) returns (p': Parts)
    requires AllHold(p, cases, seen, Assigned(sorted, cuts)) && q !in seen && members == Asking(cases, q)
    requires DistinctQueries(sorted) && (cuts.0 <= cuts.1 || |sorted| <= cuts.1)
    requires HasRepresentative(members, sorted)
    ensures AllHold(p', cases, seen + [q], Assigned(sorted, cuts))
  {
    var b := Route(members, sorted, cuts, q);
    PutHolds(p, cases, seen, q, Assigned(sorted, cuts));
    p' := Put(p, b, members);
  }

  /** Every occurrence of every case lands in exactly the bucket of its query, and a
      query in an earlier bucket was first asked no later than one in a later bucket. */
  method SplitCases(cases: seq<Case>, trainRatio: real, validationRatio: real, testRatio: real) returns (p: Parts)
    ensures exists bucket :: IsSplit(p, cases, bucket) && TiesByFirst(cases, bucket)
              && Sized(bucket, cases, Cuts(|Queries(cases)|, trainRatio, validationRatio, testRatio))
  {
    var order, groups := GroupByQuery(cases);
    var reps: seq<Case> := [];
    for i := 0 to |order|
      invariant Represent(reps, order[..i], cases)
    {
      assert order[i] in order;
      var rep := Earliest(groups[order[i]]);
      RepresentMore(reps, order, groups, i, rep, cases);
      reps := reps + [rep];
    }
    assert order[..|order|] == order;
    var sorted := SortByTime(reps);
    var cuts := Cuts(|sorted|, trainRatio, validationRatio, testRatio);
    RepresentativesSorted(cases, order, groups, reps);
    p := Distribute(cases, order, groups, sorted, cuts);
    SplitDone(cases, order, groups, reps, p, cuts);
  }

  lemma RepresentMore(reps: seq<Case>, order: seq<string>, groups: map<string, seq<Case>>, i: nat, rep: Case, cases: seq<Case>)
    requires i < |order| && order[i] in groups && groups[order[i]] == Asking(cases, order[i])
    requires Represent(reps, order[..i], cases) && rep in groups[order[i]]
    requires forall m :: m in groups[order[i]] ==> NotLater(rep.time, m.time)
    ensures Represent(reps + [rep], order[..i + 1], cases)
  {
    assert order[..i + 1] == order[..i] + [order[i]];
  }

  lemma SplitDone(cases: seq<Case>, order: seq<string>, groups: map<string, seq<Case>>, reps: seq<Case>, p: Parts,
                  cuts: (nat, nat))
    requires Grouped(order, groups, cases) && InFirstOrder(order, cases) && Represent(reps, order, cases)
    requires var n := |SortByTime(reps)|; cuts.1 <= n && (cuts.0 <= cuts.1 || cuts.1 == n)
    requires AllHold(p, cases, order, Assigned(SortByTime(reps), cuts))
    ensures |SortByTime(reps)| == |Queries(cases)|
    ensures exists bucket :: IsSplit(p, cases, bucket) && TiesByFirst(cases, bucket) && Sized(bucket, cases, cuts)
  {
    var sorted := SortByTime(reps);
    RepresentativesSorted(cases, order, groups, reps);
    AssignedInOrder(cases, order, groups, sorted, cuts);
    AssignedTies(cases, order, reps, cuts);
    QueriesRepresented(cases, order, groups, sorted);
    AssignedSized(cases, sorted, cuts);
    EveryQueryAssigned(cases, order, groups, sorted, cuts);
    AllHoldAll(p, cases, order, groups, Assigned(sorted, cuts));
  }

  lemma EveryQueryAssigned(cases: seq<Case>, order: seq<string>, groups: map<string, seq<Case>>, sorted: seq<Case>,
                           cuts: (nat, nat))
    requires Grouped(order, groups, cases) && DistinctQueries(sorted)
    requires FirstQueries(sorted, |sorted|) == Queries(cases)
    ensures forall q :: q in order ==> q in Assigned(sorted, cuts)
  {
    forall q | q in order ensures q in Assigned(sorted, cuts) {
      var c := Asking(cases, q)[0];
      assert c in Asking(cases, q);
      assert q in Queries(cases);
      var i :| 0 <= i < |sorted| && sorted[i].query == q;
      AssignedAt(sorted, cuts, i);
    }
  }

  lemma QueriesRepresented(cases: seq<Case>, order: seq<string>, groups: map<string, seq<Case>>, sorted: seq<Case>)
    requires Grouped(order, groups, cases)
    requires forall q :: q in order ==> HasRepresentative(groups[q], sorted)
    requires forall c :: c in sorted ==> IsRepresentative(c, c.query, cases)
    ensures FirstQueries(sorted, |sorted|) == Queries(cases)
  {
    forall q ensures q in FirstQueries(sorted, |sorted|) <==> q in Queries(cases) {
      if q in FirstQueries(sorted, |sorted|) {
        var i :| 0 <= i < |sorted| && sorted[i].query == q;
        assert sorted[i] in sorted && sorted[i] in cases;
      }
      if q in Queries(cases) {
        var c :| c in cases && c.query == q;
        assert c in Asking(cases, q) && q in order;
        var m :| m in groups[q] && m in sorted;
        var i :| 0 <= i < |sorted| && sorted[i] == m;
        assert sorted[i].query == q;
      }
    }
  }

  lemma AssignedSized(cases: seq<Case>, sorted: seq<Case>, cuts: (nat, nat))
    requires DistinctQueries(sorted) && FirstQueries(sorted, |sorted|) == Queries(cases)
    requires cuts.1 <= |sorted| && (cuts.0 <= cuts.1 || cuts.1 == |sorted|)
    ensures |sorted| == |Queries(cases)| && Sized(Assigned(sorted, cuts), cases, cuts)
  {
    var bucket, n := Assigned(sorted, cuts), |sorted|;
    var train := if cuts.0 < n then cuts.0 else n;
    AssignedQueries(sorted, cuts, train);
    FirstQueriesSize(sorted, n);
    FirstQueriesSize(sorted, train);
    FirstQueriesSize(sorted, cuts.1);
    DisjointSizes(QueriesIn(bucket, Train), QueriesIn(bucket, Validation));
  }

  lemma DisjointSizes(a: set<string>, b: set<string>)
    requires a !! b
    ensures |a + b| == |a| + |b|
  {
  }

  lemma AssignedQueries(sorted: seq<Case>, cuts: (nat, nat), train: nat)
    requires DistinctQueries(sorted) && cuts.1 <= |sorted| && (cuts.0 <= cuts.1 || cuts.1 == |sorted|)
    requires train == if cuts.0 < |sorted| then cuts.0 else |sorted|
    ensures var bucket := Assigned(sorted, cuts);
            && bucket.Keys == FirstQueries(sorted, |sorted|)
            && QueriesIn(bucket, Train) == FirstQueries(sorted, train)
            && QueriesIn(bucket, Train) + QueriesIn(bucket, Validation) == FirstQueries(sorted, cuts.1)
  {
    var bucket := Assigned(sorted, cuts);
    forall q
      ensures q in bucket <==> q in FirstQueries(sorted, |sorted|)
      ensures q in QueriesIn(bucket, Train) <==> q in FirstQueries(sorted, train)
      ensures q in QueriesIn(bucket, Train) + QueriesIn(bucket, Validation) <==> q in FirstQueries(sorted, cuts.1)
    {
      if i :| 0 <= i < |sorted| && sorted[i].query == q {
        AssignedAt(sorted, cuts, i);
        FirstAt(sorted, i, |sorted|);
        FirstAt(sorted, i, train);
        FirstAt(sorted, i, cuts.1);
      } else {
        assert forall c :: c in sorted ==> c.query != q;
      }
    }
  }

  lemma FirstQueriesStep(sorted: seq<Case>, m: nat)
    requires m < |sorted|
    ensures FirstQueries(sorted, m + 1) == FirstQueries(sorted, m) + {sorted[m].query}
  {
  }

  lemma FirstAt(sorted: seq<Case>, i: nat, m: nat)
    requires DistinctQueries(sorted) && i < |sorted| && m <= |sorted|
    ensures sorted[i].query in FirstQueries(sorted, m) <==> i < m
  {
  }

  lemma {:induction false} FirstQueriesSize(sorted: seq<Case>, m: nat)
    requires DistinctQueries(sorted) && m <= |sorted|
    ensures |FirstQueries(sorted, m)| == m
    decreases m
  {
    if m > 0 {
      FirstQueriesSize(sorted, m - 1);
      FirstAt(sorted, m - 1, m - 1);
      FirstQueriesStep(sorted, m - 1);
    }
  }

  lemma RepresentativesSorted(cases: seq<Case>, order: seq<string>, groups: map<string, seq<Case>>, reps: seq<Case>)
    requires Grouped(order, groups, cases) && Represent(reps, order, cases)
    ensures DistinctQueries(SortByTime(reps)) && Chronological(SortByTime(reps))
    ensures forall q :: q in order ==> HasRepresentative(groups[q], SortByTime(reps))
    ensures forall c :: c in SortByTime(reps) ==> IsRepresentative(c, c.query, cases)
  {
    SortChronological(reps);
    forall i, j | 0 <= i < j < |reps| ensures reps[i].query != reps[j].query {
      assert IsRepresentative(reps[i], order[i], cases) && IsRepresentative(reps[j], order[j], cases);
    }
    SortedDistinct(reps);
    forall q | q in order ensures HasRepresentative(groups[q], SortByTime(reps)) {
      var i :| 0 <= i < |order| && order[i] == q;
      assert IsRepresentative(reps[i], order[i], cases) && reps[i] in reps;
    }
    forall c | c in SortByTime(reps) ensures IsRepresentative(c, c.query, cases) {
      var i :| 0 <= i < |reps| && reps[i] == c;
      assert IsRepresentative(reps[i], order[i], cases);
    }
  }

  lemma NotLaterTransitive(a: TimeKey, b: TimeKey, c: TimeKey)
    requires NotLater(a, b) && NotLater(b, c)
    ensures NotLater(a, c)
  {
  }

  lemma AssignedInOrder(cases: seq<Case>, order: seq<string>, groups: map<string, seq<Case>>, sorted: seq<Case>, cuts: (nat, nat))
    requires Grouped(order, groups, cases) && DistinctQueries(sorted) && Chronological(sorted)
    requires forall c :: c in sorted ==> IsRepresentative(c, c.query, cases)
    ensures InTimeOrder(cases, Assigned(sorted, cuts))
  {
    var bucket := Assigned(sorted, cuts);
    forall a, b | a in cases && b in cases && a.query in bucket && b.query in bucket
      && IsRepresentative(a, a.query, cases) && IsRepresentative(b, b.query, cases)
      && Earlier(bucket[a.query], bucket[b.query])
      ensures NotLater(a.time, b.time)
    {
      var i, j := PositionOf(sorted, a.query), PositionOf(sorted, b.query);
      assert sorted[i] in sorted && sorted[j] in sorted;
      assert i < j;
      NotLaterTransitive(a.time, sorted[i].time, sorted[j].time);
      NotLaterTransitive(a.time, sorted[j].time, b.time);
    }
  }

  lemma AssignedTies(cases: seq<Case>, order: seq<string>, reps: seq<Case>, cuts: (nat, nat))
    requires InFirstOrder(order, cases) && Represent(reps, order, cases)
    requires DistinctQueries(SortByTime(reps)) && Chronological(SortByTime(reps))
    requires forall c :: c in SortByTime(reps) ==> IsRepresentative(c, c.query, cases)
    ensures TiesByFirst(cases, Assigned(SortByTime(reps), cuts))
  {
    var sorted := SortByTime(reps);
    var bucket := Assigned(sorted, cuts);
    SortStable(reps);
    forall a: Case, b: Case | IsRepresentative(a, a.query, cases) && IsRepresentative(b, b.query, cases)
      && a.query in bucket && b.query in bucket && Earlier(bucket[a.query], bucket[b.query])
      && NotLater(b.time, a.time)
      ensures FirstBefore(cases, a.query, b.query)
    {
      var i, j := EarlierStandsFirst(sorted, cuts, a.query, b.query);
      NotLaterTransitive(sorted[j].time, b.time, a.time);
      NotLaterTransitive(sorted[j].time, a.time, sorted[i].time);
      TieFollowsOrder(cases, order, reps, sorted[i], sorted[j]);
    }
  }

  lemma EarlierStandsFirst(sorted: seq<Case>, cuts: (nat, nat), a: string, b: string) returns (i: nat, j: nat)
    requires DistinctQueries(sorted) && a in Assigned(sorted, cuts) && b in Assigned(sorted, cuts)
    requires Earlier(Assigned(sorted, cuts)[a], Assigned(sorted, cuts)[b])
    ensures i < j < |sorted| && sorted[i].query == a && sorted[j].query == b
    ensures sorted[i] in sorted && sorted[j] in sorted
  {
    i, j := PositionOf(sorted, a), PositionOf(sorted, b);
    AssignedAt(sorted, cuts, i);
    AssignedAt(sorted, cuts, j);
  }

  lemma TieFollowsOrder(cases: seq<Case>, order: seq<string>, reps: seq<Case>, a: Case, b: Case)
    requires InFirstOrder(order, cases) && Represent(reps, order, cases) && InOrderIn(reps, a, b)
    ensures FirstBefore(cases, a.query, b.query)
  {
    var p, q :| 0 <= p < q < |reps| && reps[p] == a && reps[q] == b;
    assert IsRepresentative(reps[p], order[p], cases) && IsRepresentative(reps[q], order[q], cases);
  }

  lemma AllHoldAll(p: Parts, cases: seq<Case>, order: seq<string>, groups: map<string, seq<Case>>, bucket: map<string, Bucket>)
    requires Grouped(order, groups, cases) && AllHold(p, cases, order, bucket) && InTimeOrder(cases, bucket)
    requires forall q :: q in order ==> q in bucket
    ensures IsSplit(p, cases, bucket)
  {
    forall c | c in cases ensures c.query in order {
      assert c in Asking(cases, c.query);
    }
    assert forall c :: c !in cases ==> multiset(cases)[c] == 0;
  }

  /** What the bucket map says of the three lists: together they are the input, every
      occurrence once, and no query is asked in two of them. */
  lemma SplitIsPartition(p: Parts, cases: seq<Case>, bucket: map<string, Bucket>)
    requires IsSplit(p, cases, bucket)
    ensures multiset(p.train) + multiset(p.validation) + multiset(p.test) == multiset(cases)
    ensures forall a, b :: a in p.train && b in p.validation ==> a.query != b.query
    ensures forall a, b :: a in p.train && b in p.test ==> a.query != b.query
    ensures forall a, b :: a in p.validation && b in p.test ==> a.query != b.query
  {
    var train, validation, test := p.train, p.validation, p.test;
    forall c: Case ensures c in train ==> c.query in bucket && bucket[c.query] == Train
      ensures c in validation ==> c.query in bucket && bucket[c.query] == Validation
      ensures c in test ==> c.query in bucket && bucket[c.query] == Test
    {
      assert c in train <==> multiset(train)[c] > 0;
      assert c in validation <==> multiset(validation)[c] > 0;
      assert c in test <==> multiset(test)[c] > 0;
    }
    forall c: Case
      ensures (multiset(train) + multiset(validation) + multiset(test))[c] == multiset(cases)[c]
    {
      assert c in cases <==> multiset(cases)[c] > 0;
    }
  }

  /** A query's first case in an earlier part is no later than any case in a later one. */
  lemma SplitIsChronological(p: Parts, cases: seq<Case>, bucket: map<string, Bucket>, a: Case, b: Case)
    requires IsSplit(p, cases, bucket) && IsRepresentative(a, a.query, cases)
    requires (a in p.train && (b in p.validation || b in p.test)) || (a in p.validation && b in p.test)
    ensures NotLater(a.time, b.time)
  {
    assert forall c :: c in p.train ==> multiset(p.train)[c] > 0;
    assert forall c :: c in p.validation ==> multiset(p.validation)[c] > 0;
    assert forall c :: c in p.test ==> multiset(p.test)[c] > 0;
    assert b in cases && Earlier(bucket[a.query], bucket[b.query]);
    RepresentativeExists(cases, b);
    var first :| IsRepresentative(first, b.query, cases);
    NotLaterTransitive(a.time, first.time, b.time);
  }

  lemma {:induction false} RepresentativeExists(cases: seq<Case>, b: Case)
    requires b in cases
    ensures exists c :: IsRepresentative(c, b.query, cases)
    decreases |cases|
  {
    var n := |cases| - 1;
    assert cases == cases[..n] + [cases[n]];
    if c :| c in cases[..n] && c.query == b.query {
      RepresentativeExists(cases[..n], c);
      var first :| IsRepresentative(first, b.query, cases[..n]);
      if cases[n].query == b.query && !NotLater(first.time, cases[n].time) {
        assert IsRepresentative(cases[n], b.query, cases);
      } else {
        assert IsRepresentative(first, b.query, cases);
      }
    } else {
      assert IsRepresentative(cases[n], b.query, cases);
    }
  }

  /** At the default ratios training is never empty, validation is filled from three
      queries on, and test holds something exactly for two queries or at least four. */
  lemma DefaultCuts(n: nat)
    requires n > 0
    ensures var c := Cuts(n, 0.6, 0.2, 0.2);
            && 1 <= c.0 <= c.1 <= n
            && (c.0 < c.1 <==> n >= 3)
            && (c.1 < n <==> n == 2 || n >= 4)
  {
    RoundNearest(n as real * 0.6);
    RoundNearest(n as real * 0.8);
    assert n as real * (0.6 + 0.2) == n as real * 0.8;
  }

  /** The cuts lie within half a query of the shares `a` and `b`, as far as a training part
      of one and, from three queries on, a validation part of one leave room. */
  predicate FollowsShares(c: (nat, nat), n: nat, a: real, b: real) {
    && (a >= 0.5 ==> -0.5 <= c.0 as real - a <= 0.5 || c.0 == 1)
    && (a >= 1.5 ==> -0.5 <= c.0 as real - a <= 0.5)
    && (a < 0.5 ==> c.0 == 1)
    && (n >= 3 && b >= c.0 as real + 0.5 ==> -0.5 <= c.1 as real - b <= 0.5)
    && (n >= 3 && b < c.0 as real + 0.5 ==> c.1 == if c.0 + 1 < n then c.0 + 1 else n)
    && (n < 3 ==> c.1 == if c.0 < n then c.0 else n)
  }

  /** At ratios that sum to one the cuts follow the shares of the queries. */
  lemma CutsFollowShares(n: nat, train: real, validation: real, test: real, a: real, b: real)
    requires train >= 0.0 && validation >= 0.0 && test >= 0.0 && train + validation + test == 1.0
    requires a == n as real * train && b == n as real * (train + validation)
    ensures FollowsShares(Cuts(n, train, validation, test), n, a, b)
  {
    ShareWithin(n as real, train + validation, b);
    CutsAtShares(n, train, validation, test, a, b);
    ShareFollowed(n, a, b);
  }

  lemma CutsAtShares(n: nat, train: real, validation: real, test: real, a: real, b: real)
    requires train + validation + test > 0.0 && a == n as real * train && b == n as real * (train + validation)
    ensures Cuts(n, train, validation, test) == CutsAt(n, a, b)
  {
  }

  lemma ShareFollowed(n: nat, a: real, b: real)
    requires b <= n as real
    ensures FollowsShares(CutsAt(n, a, b), n, a, b)
  {
    RoundNearest(a);
    RoundNearest(b);
  }

  lemma ShareWithin(n: real, share: real, b: real)
    requires n >= 0.0 && share <= 1.0 && b == n * share
    ensures b <= n
  {
    assert n * share <= n * 1.0;
  }

  /** Ratios without a positive sum put everything into training. */
  lemma NoRatiosAllTraining(n: nat, train: real, validation: real, test: real)
    requires train + validation + test <= 0.0
    ensures Cuts(n, train, validation, test) == (n, n)
  {
  }
}
