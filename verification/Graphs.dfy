/** Finite directed graphs: paths, cycles, and ranks that fall along every edge. */
module Graphs {

  type Graph = iset<(nat, nat)>

  predicate Arc(g: Graph, i: nat, k: nat) {
    (i, k) in g
  }

  ghost predicate IsPath(g: Graph, p: seq<nat>, i: nat, j: nat) {
    && p != [] && p[0] == i && p[|p| - 1] == j
    && forall k :: 0 <= k < |p| - 1 ==> Arc(g, p[k], p[k + 1])
  }

  ghost predicate Reaches(g: Graph, i: nat, j: nat) {
    exists p :: IsPath(g, p, i, j)
  }

  lemma {:induction false} ReachesSelf(g: Graph, i: nat)
    ensures Reaches(g, i, i)
  {
    assert IsPath(g, [i], i, i);
  }

  lemma {:induction false} PathTail(g: Graph, p: seq<nat>, i: nat, j: nat)
    requires IsPath(g, p, i, j) && |p| > 1
    ensures Arc(g, i, p[1]) && IsPath(g, p[1..], p[1], j)
  {
    var q := p[1..];
    forall n | 0 <= n < |q| - 1 ensures Arc(g, q[n], q[n + 1]) {
      assert q[n] == p[n + 1] && q[n + 1] == p[n + 2];
    }
    assert Arc(g, p[0], p[0 + 1]);
  }

  lemma {:induction false} PathJoin(g: Graph, p: seq<nat>, i: nat, j: nat, q: seq<nat>, k: nat, l: nat)
    requires IsPath(g, p, i, j) && Arc(g, j, k) && IsPath(g, q, k, l)
    ensures IsPath(g, p + q, i, l)
  {
    var r := p + q;
    forall n | 0 <= n < |r| - 1 ensures Arc(g, r[n], r[n + 1]) {
      if n < |p| - 1 {
        assert r[n] == p[n] && r[n + 1] == p[n + 1];
      }
      if n == |p| - 1 {
        assert r[n] == j && r[n + 1] == q[0];
      }
      if n >= |p| {
        assert r[n] == q[n - |p|] && r[n + 1] == q[n - |p| + 1];
      }
    }
  }

  lemma {:induction false} ReachesVia(g: Graph, i: nat, k: nat, j: nat)
    requires Arc(g, i, k) && Reaches(g, k, j)
    ensures Reaches(g, i, j)
  {
    var p :| IsPath(g, p, k, j);
    PathJoin(g, [i], i, i, p, k, j);
  }

  lemma {:induction false} ReachesOn(g: Graph, i: nat, j: nat, k: nat)
    requires Reaches(g, i, j) && Arc(g, j, k)
    ensures Reaches(g, i, k)
  {
    var p :| IsPath(g, p, i, j);
    PathJoin(g, p, i, j, [k], k, k);
  }

  lemma {:induction false} ReachesSplit(g: Graph, i: nat, j: nat) returns (k: nat)
    requires Reaches(g, i, j) && i != j
    ensures Arc(g, i, k) && Reaches(g, k, j)
  {
    var p :| IsPath(g, p, i, j);
    PathTail(g, p, i, j);
    k := p[1];
  }

  /** No node of the set reaches itself along one or more edges. */
  ghost predicate Acyclic(g: Graph, among: set<nat>) {
    forall i: nat, k: nat :: i in among && Arc(g, i, k) ==> !Reaches(g, k, i)
  }

  // ----- bounded paths mean no cycle

  ghost predicate Bounded(g: Graph, i: nat, bound: nat) {
    forall p, j :: IsPath(g, p, i, j) ==> |p| <= bound
  }

  /** Around a cycle there are paths of any length. */
  lemma {:induction false} Around(g: Graph, i: nat, k: nat, n: nat) returns (p: seq<nat>)
    requires Arc(g, i, k) && Reaches(g, k, i)
    ensures IsPath(g, p, i, i) && |p| > n
  {
    if n == 0 {
      p := [i];
    } else {
      var before := Around(g, i, k, n - 1);
      var q :| IsPath(g, q, k, i);
      PathJoin(g, before, i, i, q, k, i);
      p := before + q;
    }
  }

  lemma {:induction false} BoundedAcyclic(g: Graph, i: nat, bound: nat, j: nat, k: nat)
    requires Bounded(g, i, bound) && Reaches(g, i, j) && Arc(g, j, k)
    ensures !Reaches(g, k, j)
  {
    if Reaches(g, k, j) {
      var p :| IsPath(g, p, i, j);
      var turns := Around(g, j, k, bound);
      PathTurns(g, p, i, j, turns);
    }
  }

  lemma {:induction false} PathTurns(g: Graph, p: seq<nat>, i: nat, j: nat, turns: seq<nat>)
    requires IsPath(g, p, i, j) && IsPath(g, turns, j, j)
    ensures IsPath(g, p[..|p| - 1] + turns, i, j)
  {
    var r, before := p[..|p| - 1] + turns, p[..|p| - 1];
    forall n | 0 <= n < |r| - 1 ensures Arc(g, r[n], r[n + 1]) {
      if n < |before| {
        assert r[n] == p[n] && r[n + 1] == p[n + 1];
      } else {
        assert r[n] == turns[n - |before|] && r[n + 1] == turns[n - |before| + 1];
      }
    }
  }

  // ----- no cycle means falling ranks

  function Members(p: seq<nat>): set<nat> {
    set x | x in p
  }

  ghost predicate Simple(p: seq<nat>) {
    forall i, j :: 0 <= i < j < |p| ==> p[i] != p[j]
  }

  lemma {:induction false} MembersMore(q: seq<nat>, x: nat)
    ensures Members(q + [x]) == Members(q) + {x}
  {
  }

  lemma {:induction false} SimpleMore(q: seq<nat>, x: nat)
    requires Simple(q + [x])
    ensures Simple(q) && x !in Members(q)
  {
    var p := q + [x];
    forall i, j | 0 <= i < j < |q| ensures q[i] != q[j] {
      assert p[i] == q[i] && p[j] == q[j];
    }
    forall i | 0 <= i < |q| ensures q[i] != x {
      assert p[i] == q[i] && p[|q|] == x;
    }
  }

  lemma {:induction false} MembersCount(p: seq<nat>)
    requires Simple(p)
    ensures |Members(p)| == |p|
  {
    if p != [] {
      var q, x := p[..|p| - 1], p[|p| - 1];
      assert p == q + [x];
      SimpleMore(q, x);
      MembersCount(q);
      MembersMore(q, x);
    }
  }

  lemma {:induction false} SubsetCount(a: set<nat>, b: set<nat>)
    requires a <= b
    ensures |a| <= |b|
  {
    if a != {} {
      var x :| x in a;
      SubsetCount(a - {x}, b - {x});
    }
  }

  ghost predicate Sink(g: Graph, s: set<nat>, i: nat) {
    i in s && forall k :: k in s ==> !Arc(g, i, k)
  }

  /** One more step leads to a node not yet on the path. */
  lemma {:induction false} ExtendPath(g: Graph, s: set<nat>, p: seq<nat>, from: nat, last: nat, k: nat)
    requires Acyclic(g, s) && IsPath(g, p, from, last) && last in s && Arc(g, last, k) && Simple(p)
    ensures IsPath(g, p + [k], from, k) && Simple(p + [k])
  {
    PathJoin(g, p, from, last, [k], k, k);
    forall a | 0 <= a < |p| ensures p[a] != k {
      PathFrom(g, p, from, last, a);
      assert Reaches(g, p[a], last);
    }
  }

  lemma {:induction false} PathFrom(g: Graph, p: seq<nat>, i: nat, j: nat, a: nat)
    requires IsPath(g, p, i, j) && a < |p|
    ensures IsPath(g, p[a..], p[a], j)
  {
    var q := p[a..];
    forall n | 0 <= n < |q| - 1 ensures Arc(g, q[n], q[n + 1]) {
      assert q[n] == p[a + n] && q[n + 1] == p[a + n + 1];
    }
  }

  /** Extend a path within `s` until it cannot be extended. */
  lemma {:induction false} FindSink(g: Graph, s: set<nat>, p: seq<nat>, from: nat, last: nat) returns (i: nat)
    requires Acyclic(g, s) && IsPath(g, p, from, last) && Members(p) <= s && Simple(p)
    ensures Sink(g, s, i)
    decreases |s| - |p|
  {
    MembersCount(p);
    SubsetCount(Members(p), s);
    assert last in Members(p);
    if exists k :: k in s && Arc(g, last, k) {
      var k :| k in s && Arc(g, last, k);
      ExtendPath(g, s, p, from, last, k);
      MembersMore(p, k);
      MembersCount(p + [k]);
      SubsetCount(Members(p + [k]), s);
      i := FindSink(g, s, p + [k], from, k);
    } else {
      i := last;
    }
  }

  type Ranking = map<nat, nat>

  /** Ranks of a set of nodes that fall along every edge within it. */
  ghost predicate Falling(g: Graph, s: set<nat>, rank: Ranking) {
    rank.Keys == s && forall i, k :: i in s && k in s && Arc(g, i, k) ==> rank[k] < rank[i]
  }

  lemma {:induction false} AcyclicFalling(g: Graph, s: set<nat>) returns (rank: Ranking)
    requires Acyclic(g, s)
    ensures Falling(g, s, rank) && forall i :: i in s ==> rank[i] < |s|
    decreases |s|
  {
    if s == {} {
      rank := map[];
    } else {
      var x :| x in s;
      var i := FindSink(g, s, [x], x, x);
      var below := AcyclicFalling(g, s - {i});
      rank := map k | k in s :: if k == i then 0 else below[k] + 1;
    }
  }

  // ----- what a list of nodes reaches among the first `count` nodes

  function Below(n: nat): (s: set<nat>)
    ensures |s| == n && forall i: nat :: i in s <==> i < n
  {
    if n == 0 then {} else Below(n - 1) + {n - 1}
  }

  ghost function ReachedFrom(g: Graph, count: nat, i: nat): set<nat> {
    set j | j in Below(count) && Reaches(g, i, j)
  }

  /** Edges end among the first `count` nodes. */
  ghost predicate Within(g: Graph, count: nat) {
    forall i: nat, k: nat :: Arc(g, i, k) ==> k < count
  }

  /** If a node reaches no cycle, everything it reaches has a rank below `count`. */
  lemma {:induction false} ReachedRanks(g: Graph, count: nat, i: nat) returns (rank: Ranking)
    requires Acyclic(g, ReachedFrom(g, count, i)) && Within(g, count) && i < count
    ensures Falling(g, ReachedFrom(g, count, i), rank) && i in rank
    ensures forall j :: j in rank ==> rank[j] < count
    ensures forall j, k: nat :: j in rank && Arc(g, j, k) ==> k in rank && rank[k] < rank[j]
  {
    var s := ReachedFrom(g, count, i);
    rank := AcyclicFalling(g, s);
    SubsetCount(s, Below(count));
    ReachesSelf(g, i);
    forall j, k: nat | j in s && Arc(g, j, k) ensures k in s {
      ReachesOn(g, i, j, k);
    }
  }
}
