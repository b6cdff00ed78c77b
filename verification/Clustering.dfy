/** Clustering of candidate pairs: a similarity filter, an unranked union-find with path
    halving over a parent array, and the grouping by root. */
module Clustering {
  import opened Connectivity
  import opened Dictionaries

  // ---------------------------------------------------------------------------
  // Union-find
  // ---------------------------------------------------------------------------

  /** What a parent array means: the root of every index, and an order that grows
      along parent links, which is why following them ends. */
  datatype Shape = Shape(root: seq<nat>, order: seq<nat>, top: nat)

  ghost predicate Linked(parent: seq<nat>, s: Shape, i: nat)
    requires |parent| == |s.root| == |s.order| && i < |parent|
  {
    && parent[i] < |parent| && s.root[i] < |parent| && s.order[i] < s.top
    && s.root[parent[i]] == s.root[i]
    && (if parent[i] == i then s.root[i] == i else s.order[i] < s.order[parent[i]])
  }

  ghost predicate Forest(parent: seq<nat>, s: Shape) {
    && |parent| == |s.root| == |s.order|
    && forall i :: 0 <= i < |parent| ==> Linked(parent, s, i)
  }

  /** The roots are a function of the parent array: they are what its links lead to. */
  lemma {:induction false} RootsUnique(parent: seq<nat>, s: Shape, t: Shape, i: nat)
    requires Forest(parent, s) && Forest(parent, t) && i < |parent|
    ensures s.root[i] == t.root[i]
    decreases s.top - s.order[i]
  {
    assert Linked(parent, s, i) && Linked(parent, t, i);
    if parent[i] != i {
      assert Linked(parent, s, parent[i]);
      RootsUnique(parent, s, t, parent[i]);
    }
  }

  lemma {:induction false} RootIsFixed(parent: seq<nat>, s: Shape, i: nat)
    requires Forest(parent, s) && i < |parent|
    ensures s.root[i] < |parent| && parent[s.root[i]] == s.root[i] && s.root[s.root[i]] == s.root[i]
    decreases s.top - s.order[i]
  {
    assert Linked(parent, s, i);
    if parent[i] != i {
      assert Linked(parent, s, parent[i]);
      RootIsFixed(parent, s, parent[i]);
    }
  }

  /** One shortcut past a parent keeps every root. */
  lemma HalvedForest(parent: seq<nat>, s: Shape, r: nat)
    requires Forest(parent, s) && r < |parent|
    ensures parent[r] < |parent| && Forest(parent[r := parent[parent[r]]], s)
  {
    assert Linked(parent, s, r) && Linked(parent, s, parent[r]);
    var halved := parent[r := parent[parent[r]]];
    forall i | 0 <= i < |parent| ensures Linked(halved, s, i) {
      assert Linked(parent, s, i);
    }
  }

  /** Path halving: shortcuts links on the way up and changes no root. */
  method Find(parent: array<nat>, ghost s: Shape, i: nat) returns (r: nat)
    requires Forest(parent[..], s) && i < parent.Length
    modifies parent
    ensures Forest(parent[..], s)
    ensures r < parent.Length && r == s.root[i] && parent[r] == r
  {
    r := i;
    while parent[r] != r
      invariant r < parent.Length && Forest(parent[..], s) && s.root[r] == s.root[i]
      decreases s.top - s.order[r]
    {
      ghost var before := parent[..];
      assert Linked(before, s, r) && Linked(before, s, before[r]);
      HalvedForest(before, s, r);
      parent[r] := parent[parent[r]];
      assert parent[..] == before[r := before[before[r]]];
      r := parent[r];
    }
    assert Linked(parent[..], s, r);
  }

  /** The shape once the root of `a` hangs below that of `b`: the nodes above `b` move
      past everything. */
  ghost function Joined(s: Shape, a: nat, b: nat): Shape
    requires |s.root| == |s.order| && a < |s.root| && b < |s.root|
  {
    Shape(MergeRoots(s.root, s.root[a], s.root[b]),
          seq(|s.order|, i requires 0 <= i < |s.order| =>
            if s.root[i] == s.root[b] then s.order[i] + s.top else s.order[i]),
          2 * s.top)
  }

  method Union(parent: array<nat>, ghost s: Shape, i: nat, j: nat) returns (ghost t: Shape)
    requires Forest(parent[..], s) && i < parent.Length && j < parent.Length
    modifies parent
    ensures Forest(parent[..], t) && t.root == MergeRoots(s.root, s.root[i], s.root[j])
  {
    var ri := Find(parent, s, i);
    var rj := Find(parent, s, j);
    t := s;
    if ri != rj {
      ghost var before := parent[..];
      parent[ri] := rj;
      assert parent[..] == before[ri := rj];
      t := Joined(s, i, j);
      JoinedForest(before, s, i, j);
    } else {
      assert MergeRoots(s.root, ri, rj) == s.root;
    }
  }

  lemma JoinedForest(parent: seq<nat>, s: Shape, a: nat, b: nat)
    requires Forest(parent, s) && a < |parent| && b < |parent| && s.root[a] != s.root[b]
    ensures s.root[a] < |parent| && Forest(parent[s.root[a] := s.root[b]], Joined(s, a, b))
  {
    RootIsFixed(parent, s, a);
    RootIsFixed(parent, s, b);
    var linked, t := parent[s.root[a] := s.root[b]], Joined(s, a, b);
    forall i | 0 <= i < |parent| ensures Linked(linked, t, i) {
      assert Linked(parent, s, i) && Linked(parent, s, parent[i]) && Linked(parent, s, s.root[b]);
    }
  }

  /** Start from singletons. */
  method Singletons(n: nat) returns (parent: array<nat>, ghost s: Shape)
    ensures fresh(parent) && parent.Length == n && Forest(parent[..], s) && Classifies(s.root, {})
  {
    parent := new nat[n](i => i);
    s := Shape(parent[..], parent[..], n);
    forall i, j | 0 <= i < n && 0 <= j < n && s.root[i] == s.root[j] ensures Connected({}, i, j) {
      ConnectedReflexive({}, i);
    }
  }

  // ---------------------------------------------------------------------------
  // From links to clusters
  // ---------------------------------------------------------------------------

  ghost function Similar(pairs: Edges, similar: (nat, nat) -> bool): Edges {
    set e | e in pairs && similar(e.0, e.1)
  }

  /** Union every pair that passes the similarity check, in whatever order the set of
      pairs is iterated, then group the indices by root. */
  method Cluster(n: nat, pairs: Edges, similar: (nat, nat) -> bool) returns (clusters: seq<seq<nat>>)
    requires forall a, b :: (a, b) in pairs ==> a < n && b < n
    ensures AreClusters(clusters, n, Similar(pairs, similar))
  {
    var parent, s := Singletons(n);
    var todo: Edges := pairs;
    ghost var done: Edges := {};
    assert Similar(done, similar) == {};
    while todo != {}
      invariant done + todo == pairs && parent.Length == n
      invariant Forest(parent[..], s) && Classifies(s.root, Similar(done, similar))
      decreases |todo|
    {
      var e :| e in todo;
      assert e == (e.0, e.1) && e.0 < n && e.1 < n;
      s := Consider(parent, s, e, similar, done);
      todo, done := todo - {e}, done + {e};
    }
    assert done == pairs;
    clusters := Group(parent, s, Similar(pairs, similar));
  }

  method Consider(parent: array<nat>, ghost s: Shape, e: (nat, nat), similar: (nat, nat) -> bool, ghost done: Edges)
    returns (ghost t: Shape)
    requires Forest(parent[..], s) && Classifies(s.root, Similar(done, similar))
    requires e.0 < parent.Length && e.1 < parent.Length
    modifies parent
    ensures Forest(parent[..], t) && Classifies(t.root, Similar(done + {e}, similar))
  {
    t := s;
    if similar(e.0, e.1) {
      MergeClassifies(s.root, Similar(done, similar), e.0, e.1);
      assert Similar(done + {e}, similar) == Similar(done, similar) + {(e.0, e.1)};
      t := Union(parent, s, e.0, e.1);
    } else {
      assert Similar(done + {e}, similar) == Similar(done, similar);
    }
  }

  /** `g` lists the indices below `m` whose root is `r`. */
  ghost predicate IsClass(g: seq<nat>, root: seq<nat>, m: nat, r: nat)
    requires m <= |root|
  {
    && Ascending(g)
    && forall x: nat :: x in g <==> x < m && root[x] == r
  }

  /** The group dictionary: `keys` in insertion order, one group for each. */
  ghost predicate Grouped(keys: seq<nat>, groups: map<nat, seq<nat>>, root: seq<nat>, m: nat)
    requires m <= |root|
  {
    && (forall r :: r in keys <==> r in groups)
    && (forall r :: r in groups ==> groups[r] != [] && IsClass(groups[r], root, m, r))
    && (forall x :: 0 <= x < m ==> root[x] in groups)
    && FirstsRise(keys, groups)
  }

  ghost predicate FirstsRise(keys: seq<nat>, groups: map<nat, seq<nat>>)
    requires forall r :: r in keys ==> r in groups && groups[r] != []
  {
    forall k, l :: 0 <= k < l < |keys| ==> groups[keys[k]][0] < groups[keys[l]][0]
  }

  method Group(parent: array<nat>, ghost s: Shape, ghost links: Edges) returns (clusters: seq<seq<nat>>)
    requires Forest(parent[..], s) && Classifies(s.root, links)
    modifies parent
    ensures AreClusters(clusters, parent.Length, links)
  {
    var keys: seq<nat>, groups: map<nat, seq<nat>> := [], map[];
    for i := 0 to parent.Length
      invariant Forest(parent[..], s) && Grouped(keys, groups, s.root, i)
    {
      keys, groups := Place(parent, s, keys, groups, i);
    }
    clusters := LargeGroups(keys, groups, s.root, links);
  }

  method Place(parent: array<nat>, ghost s: Shape, keys: seq<nat>, groups: map<nat, seq<nat>>, i: nat)
    returns (keys': seq<nat>, groups': map<nat, seq<nat>>)
    requires Forest(parent[..], s) && i < parent.Length && Grouped(keys, groups, s.root, i)
    modifies parent
    ensures Forest(parent[..], s) && Grouped(keys', groups', s.root, i + 1)
  {
    var r := Find(parent, s, i);
    GroupStep(keys, groups, s.root, i);
    keys', groups' := KeysWith(keys, groups, r), GroupsWith(groups, r, i);
  }

  lemma ClassGrows(g: seq<nat>, root: seq<nat>, i: nat, r: nat)
    requires i < |root| && IsClass(g, root, i, r)
    ensures IsClass(if root[i] == r then g + [i] else g, root, i + 1, r)
  {
    forall k | 0 <= k < |g| ensures g[k] < i {
      assert g[k] in g;
    }
  }

  lemma GroupsStayClasses(keys: seq<nat>, groups: map<nat, seq<nat>>, root: seq<nat>, i: nat)
    requires i < |root| && Grouped(keys, groups, root, i)
    ensures var more := GroupsWith(groups, root[i], i); forall q :: q in more ==> IsClass(more[q], root, i + 1, q)
  {
    var r := root[i];
    var own := if r in groups then groups[r] else [];
    var more := GroupsWith(groups, r, i);
    assert IsClass(own, root, i, r);
    forall q | q in more ensures IsClass(more[q], root, i + 1, q) {
      ClassGrows(if q == r then own else groups[q], root, i, q);
    }
  }

  lemma FirstsStayRising(keys: seq<nat>, groups: map<nat, seq<nat>>, r: nat, i: nat)
    requires forall q :: q in keys <==> q in groups
    requires forall q :: q in groups ==> groups[q] != [] && groups[q][0] < i
    requires FirstsRise(keys, groups)
    ensures FirstsRise(KeysWith(keys, groups, r), GroupsWith(groups, r, i))
  {
    forall k | 0 <= k < |keys|
      ensures keys[k] in groups && GroupsWith(groups, r, i)[keys[k]][0] == groups[keys[k]][0] < i
    {
      assert keys[k] in keys;
    }
  }

  lemma GroupStep(keys: seq<nat>, groups: map<nat, seq<nat>>, root: seq<nat>, i: nat)
    requires i < |root| && Grouped(keys, groups, root, i)
    ensures Grouped(KeysWith(keys, groups, root[i]), GroupsWith(groups, root[i], i), root, i + 1)
  {
    GroupsStayClasses(keys, groups, root, i);
    forall q | q in groups ensures groups[q][0] < i {
      assert groups[q][0] in groups[q];
    }
    FirstsStayRising(keys, groups, root[i], i);
  }

  /** The groups in the order of their keys. */
  function Listed(keys: seq<nat>, groups: map<nat, seq<nat>>): seq<seq<nat>>
    requires forall r :: r in keys ==> r in groups
  {
    seq(|keys|, k requires 0 <= k < |keys| => assert keys[k] in keys; groups[keys[k]])
  }

  function Large(lists: seq<seq<nat>>): (r: seq<seq<nat>>)
    ensures forall c :: c in r <==> c in lists && |c| >= 2
  {
    if lists == [] then [] else
      var n := |lists| - 1;
      Large(lists[..n]) + if |lists[n]| >= 2 then [lists[n]] else []
  }

  lemma {:induction false} LargeAscend(lists: seq<seq<nat>>)
    requires HeadsAscend(lists)
    ensures HeadsAscend(Large(lists))
    decreases |lists|
  {
    if lists != [] {
      var n := |lists| - 1;
      var kept := Large(lists[..n]);
      LargeAscend(lists[..n]);
      forall k | 0 <= k < |kept| ensures kept[k][0] < lists[n][0] {
        assert kept[k] in lists[..n];
      }
    }
  }

  /** Groups of one are no clusters. */
  method LargeGroups(keys: seq<nat>, groups: map<nat, seq<nat>>, ghost root: seq<nat>, ghost links: Edges)
    returns (clusters: seq<seq<nat>>)
    requires Grouped(keys, groups, root, |root|) && Classifies(root, links)
    ensures AreClusters(clusters, |root|, links)
  {
    clusters := [];
    ghost var all := Listed(keys, groups);
    for k := 0 to |keys|
      invariant clusters == Large(all[..k])
    {
      assert keys[k] in keys && all[..k + 1][..k] == all[..k];
      if |groups[keys[k]]| >= 2 {
        clusters := clusters + [groups[keys[k]]];
      }
    }
    assert all[..|keys|] == all;
    GroupsAreClusters(keys, groups, root, links);
  }

  lemma ClassIsComponent(g: seq<nat>, root: seq<nat>, links: Edges, r: nat)
    requires IsClass(g, root, |root|, r) && g != [] && Classifies(root, links)
    ensures IsComponent(g, |root|, links)
  {
    assert g[0] in g;
    forall x: nat ensures x in g <==> x < |root| && Connected(links, g[0], x) {
      if x < |root| { ClassifiesExactly(root, links, g[0], x); }
    }
  }

  lemma GroupsAreClusters(keys: seq<nat>, groups: map<nat, seq<nat>>, root: seq<nat>, links: Edges)
    requires Grouped(keys, groups, root, |root|) && Classifies(root, links)
    ensures AreClusters(Large(Listed(keys, groups)), |root|, links)
  {
    var all := Listed(keys, groups);
    var clusters := Large(all);
    LargeAscend(all);
    forall k | 0 <= k < |clusters| ensures IsComponent(clusters[k], |root|, links) && |clusters[k]| >= 2 {
      assert clusters[k] in all;
      var l :| 0 <= l < |keys| && clusters[k] == all[l];
      ClassIsComponent(clusters[k], root, links, keys[l]);
    }
    forall i: nat, j: nat | i < |root| && j < |root| && i != j && Connected(links, i, j)
      ensures exists k :: 0 <= k < |clusters| && i in clusters[k]
    {
      ClassifiesExactly(root, links, i, j);
      GroupListed(keys, groups, root, i, j);
    }
  }

  /** Two members of one class put their group among the large ones. */
  lemma GroupListed(keys: seq<nat>, groups: map<nat, seq<nat>>, root: seq<nat>, i: nat, j: nat)
    requires Grouped(keys, groups, root, |root|) && i < |root| && j < |root| && i != j && root[i] == root[j]
    ensures exists k :: 0 <= k < |Large(Listed(keys, groups))| && i in Large(Listed(keys, groups))[k]
  {
    var g := groups[root[i]];
    assert i in g && j in g;
    assert |g| >= 2;
    var l :| 0 <= l < |keys| && keys[l] == root[i];
    assert Listed(keys, groups)[l] == g;
    assert g in Large(Listed(keys, groups));
  }
}
