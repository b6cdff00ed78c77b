/** Undirected connectivity over a set of index pairs, and lists of its components. */
module Connectivity {

  type Edges = set<(nat, nat)>

  ghost predicate Linked(edges: Edges, a: nat, b: nat) {
    (a, b) in edges || (b, a) in edges
  }

  ghost predicate IsPath(edges: Edges, p: seq<nat>) {
    p != [] && forall i :: 0 <= i < |p| - 1 ==> Linked(edges, p[i], p[i + 1])
  }

  ghost predicate Connected(edges: Edges, a: nat, b: nat) {
    exists p :: IsPath(edges, p) && p[0] == a && p[|p| - 1] == b
  }

  lemma ConnectedReflexive(edges: Edges, a: nat)
    ensures Connected(edges, a, a)
  {
    assert IsPath(edges, [a]);
  }

  lemma ConnectedLink(edges: Edges, a: nat, b: nat)
    requires Linked(edges, a, b)
    ensures Connected(edges, a, b)
  {
    assert IsPath(edges, [a, b]);
  }

  lemma ConnectedTransitive(edges: Edges, a: nat, b: nat, c: nat)
    requires Connected(edges, a, b) && Connected(edges, b, c)
    ensures Connected(edges, a, c)
  {
    var p :| IsPath(edges, p) && p[0] == a && p[|p| - 1] == b;
    var q :| IsPath(edges, q) && q[0] == b && q[|q| - 1] == c;
    var r := p + q[1..];
    assert IsPath(edges, r);
    assert r[|r| - 1] == c;
  }

  lemma {:induction false} ConnectedSymmetric(edges: Edges, a: nat, b: nat)
    requires Connected(edges, a, b)
    ensures Connected(edges, b, a)
  {
    var p :| IsPath(edges, p) && p[0] == a && p[|p| - 1] == b;
    var r := seq(|p|, i requires 0 <= i < |p| => p[|p| - 1 - i]);
    assert IsPath(edges, r);
  }

  lemma ConnectedMonotone(small: Edges, large: Edges, a: nat, b: nat)
    requires small <= large && Connected(small, a, b)
    ensures Connected(large, a, b)
  {
    var p :| IsPath(small, p) && p[0] == a && p[|p| - 1] == b;
    assert IsPath(large, p);
  }

  /** `same` is an equivalence on indices below `n` that holds every edge. */
  ghost predicate Respects(edges: Edges, root: seq<nat>) {
    forall a, b :: (a, b) in edges ==> a < |root| && b < |root| && root[a] == root[b]
  }

  lemma {:induction false} PathRespects(edges: Edges, root: seq<nat>, p: seq<nat>)
    requires Respects(edges, root) && IsPath(edges, p) && p[0] < |root|
    ensures p[|p| - 1] < |root| && root[p[0]] == root[p[|p| - 1]]
    decreases |p|
  {
    if |p| > 1 {
      assert Linked(edges, p[0], p[0 + 1]);
      assert IsPath(edges, p[1..]) by {
        forall i | 0 <= i < |p[1..]| - 1 ensures Linked(edges, p[1..][i], p[1..][i + 1]) {
          assert Linked(edges, p[i + 1], p[i + 1 + 1]);
        }
      }
      PathRespects(edges, root, p[1..]);
    }
  }

  /** Equal roots mean connected, and the other way round. */
  ghost predicate Classifies(root: seq<nat>, edges: Edges) {
    && Respects(edges, root)
    && forall i, j :: 0 <= i < |root| && 0 <= j < |root| && root[i] == root[j] ==> Connected(edges, i, j)
  }

  lemma ClassifiesExactly(root: seq<nat>, edges: Edges, i: nat, j: nat)
    requires Classifies(root, edges) && i < |root| && j < |root|
    ensures root[i] == root[j] <==> Connected(edges, i, j)
  {
    if Connected(edges, i, j) {
      var p :| IsPath(edges, p) && p[0] == i && p[|p| - 1] == j;
      PathRespects(edges, root, p);
    }
  }

  function MergeRoots(root: seq<nat>, from: nat, to: nat): (r: seq<nat>)
    ensures |r| == |root|
  {
    seq(|root|, i requires 0 <= i < |root| => if root[i] == from then to else root[i])
  }

  /** Merging the classes of `a` and `b` accounts for one more edge. */
  lemma MergeClassifies(root: seq<nat>, edges: Edges, a: nat, b: nat)
    requires Classifies(root, edges) && a < |root| && b < |root|
    ensures Classifies(MergeRoots(root, root[a], root[b]), edges + {(a, b)})
  {
    var more, merged := edges + {(a, b)}, MergeRoots(root, root[a], root[b]);
    forall i, j | 0 <= i < |root| && 0 <= j < |root| && merged[i] == merged[j]
      ensures Connected(more, i, j)
    {
      if root[i] == root[j] {
        ConnectedMonotone(edges, more, i, j);
      } else if root[i] == root[a] {
        Bridge(edges, more, i, a, b, j);
      } else {
        Bridge(edges, more, j, a, b, i);
        ConnectedSymmetric(more, j, i);
      }
    }
  }

  lemma Bridge(edges: Edges, more: Edges, i: nat, a: nat, b: nat, j: nat)
    requires edges <= more && Connected(edges, i, a) && Linked(more, a, b) && Connected(edges, b, j)
    ensures Connected(more, i, j)
  {
    ConnectedMonotone(edges, more, i, a);
    ConnectedLink(more, a, b);
    ConnectedMonotone(edges, more, b, j);
    ConnectedTransitive(more, i, a, b);
    ConnectedTransitive(more, i, b, j);
  }

  ghost predicate Ascending(s: seq<nat>) {
    forall i, j :: 0 <= i < j < |s| ==> s[i] < s[j]
  }

  ghost predicate IsComponent(c: seq<nat>, n: nat, edges: Edges) {
    && c != [] && Ascending(c)
    && (forall x: nat :: x in c <==> x < n && Connected(edges, c[0], x))
  }

  ghost predicate HeadsAscend(lists: seq<seq<nat>>) {
    && (forall k :: 0 <= k < |lists| ==> lists[k] != [])
    && (forall k, l :: 0 <= k < l < |lists| ==> lists[k][0] < lists[l][0])
  }

  /** `clusters` lists every component of two or more indices, each ascending, in the
      order of their first members. */
  ghost predicate AreClusters(clusters: seq<seq<nat>>, n: nat, edges: Edges) {
    && (forall k :: 0 <= k < |clusters| ==> IsComponent(clusters[k], n, edges) && |clusters[k]| >= 2)
    && HeadsAscend(clusters)
    && (forall i: nat, j: nat :: i < n && j < n && i != j && Connected(edges, i, j) ==>
          exists k :: 0 <= k < |clusters| && i in clusters[k])
  }

  lemma {:induction false} AscendingUnique(a: seq<nat>, b: seq<nat>)
    requires Ascending(a) && Ascending(b) && forall x :: x in a <==> x in b
    ensures a == b
    decreases |a|
  {
    assert b != [] ==> b[0] in b;
    if a != [] {
      assert a[0] in b && b[0] in a;
      assert a[0] == b[0];
      forall x ensures x in a[1..] <==> x in b[1..] {
        AscendingTail(a, x);
        AscendingTail(b, x);
      }
      AscendingUnique(a[1..], b[1..]);
    }
  }

  lemma AscendingTail(s: seq<nat>, x: nat)
    requires s != [] && Ascending(s)
    ensures x in s[1..] <==> x in s && x != s[0]
  {
    if x in s && x != s[0] {
      var i :| 0 <= i < |s| && s[i] == x;
      assert s[1..][i - 1] == x;
    }
  }

  lemma ComponentsShareNothing(a: seq<nat>, b: seq<nat>, n: nat, edges: Edges, x: nat)
    requires IsComponent(a, n, edges) && IsComponent(b, n, edges) && x in a && x in b
    ensures a == b
  {
    forall y | y in a ensures y in b {
      ConnectedSymmetric(edges, a[0], x);
      ConnectedTransitive(edges, x, a[0], y);
      ConnectedTransitive(edges, b[0], x, y);
    }
    forall y | y in b ensures y in a {
      ConnectedSymmetric(edges, b[0], x);
      ConnectedTransitive(edges, x, b[0], y);
      ConnectedTransitive(edges, a[0], x, y);
    }
    AscendingUnique(a, b);
  }

  lemma ClusterFound(c: seq<nat>, clusters: seq<seq<nat>>, n: nat, edges: Edges)
    requires AreClusters(clusters, n, edges) && IsComponent(c, n, edges) && |c| >= 2
    ensures c in clusters
  {
    assert c[0] in c && c[1] in c;
    var k :| 0 <= k < |clusters| && c[0] in clusters[k];
    ComponentsShareNothing(c, clusters[k], n, edges, c[0]);
  }

  /** The cluster list is a function of the edges, whatever order produced it. */
  lemma ClustersUnique(a: seq<seq<nat>>, b: seq<seq<nat>>, n: nat, edges: Edges)
    requires AreClusters(a, n, edges) && AreClusters(b, n, edges)
    ensures a == b
  {
    forall c ensures c in a <==> c in b {
      if c in a { ClusterFound(c, b, n, edges); }
      if c in b { ClusterFound(c, a, n, edges); }
    }
    HeadsUnique(a, b);
  }

  lemma {:induction false} HeadsUnique(a: seq<seq<nat>>, b: seq<seq<nat>>)
    requires forall c :: c in a <==> c in b
    requires HeadsAscend(a) && HeadsAscend(b)
    ensures a == b
    decreases |a|
  {
    assert b != [] ==> b[0] in b;
    if a != [] {
      assert a[0] in b && b[0] in a;
      assert a[0] == b[0];
      forall c ensures c in a[1..] <==> c in b[1..] {
        if c in a[1..] {
          var i :| 0 <= i < |a[1..]| && a[1..][i] == c;
          assert a[i + 1] in b;
        }
        if c in b[1..] {
          var i :| 0 <= i < |b[1..]| && b[1..][i] == c;
          assert b[i + 1] in a;
        }
      }
      HeadsUnique(a[1..], b[1..]);
    }
  }
}
