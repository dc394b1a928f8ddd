/** Union-find with path halving, as `units.py` and `planner.py` write it over a
    `parent` dictionary, and the connectivity it decides. */
module UnionFind {
  import opened Prelude

  class Forest<T(==,!new)> {
    var parent: map<T, T>
    /** Each node's representative: what `find` returns. */
    ghost var root: map<T, T>
    /** A measure that grows along every parent link. */
    ghost var rank: map<T, nat>
    ghost var height: nat

    ghost predicate Valid()
      reads this
    {
      Ranked(parent, root, rank, height)
    }

    constructor (nodes: set<T>)
      ensures Valid() && parent.Keys == root.Keys == nodes
      ensures forall x | x in nodes :: root[x] == x
    {
      parent := map x | x in nodes :: x;
      root := map x | x in nodes :: x;
      rank := map x | x in nodes :: 0;
      height := 0;
    }

    /** `find`: every visited node is re-hung on its grandparent. No
        representative changes. */
    method Find(start: T) returns (x: T)
      requires Valid() && start in parent
      modifies this
      ensures Valid() && parent.Keys == root.Keys == old(parent.Keys)
      ensures root == old(root)
      ensures x in parent && x == root[start] && parent[x] == x
    {
      x := start;
      assert NodeOk(parent, root, rank, height, x);
      while parent[x] != x
        invariant Valid() && x in parent && parent.Keys == old(parent.Keys)
        invariant root == old(root) && height == old(height) && root[x] == root[start]
        invariant NodeOk(parent, root, rank, height, x)
        decreases height - rank[x]
      {
        Halve(parent, root, rank, height, x);
        parent := parent[x := parent[parent[x]]];
        x := parent[x];
        assert NodeOk(parent, root, rank, height, x);
      }
    }

    /** `union`: the root of `a` is hung below the root of `b`. */
    method Union(a: T, b: T)
      requires Valid() && a in parent && b in parent
      modifies this
      ensures Valid() && parent.Keys == root.Keys == old(parent.Keys)
      ensures a in old(root) && b in old(root) && root == Merged(old(root), old(root)[a], old(root)[b])
    {
      var rb := Find(b);
      var ra := Find(a);
      assert NodeOk(parent, root, rank, height, b);
      Hang(parent, root, rank, height, ra, rb);
      parent := parent[ra := rb];
      root := Merged(root, ra, rb);
      if ra != rb {
        rank := rank[rb := Above(rank, ra, rb)];
        height := height + 1;
      }
    }
  }

  ghost function Above<T(!new)>(rank: map<T, nat>, ra: T, rb: T): nat
    requires ra in rank && rb in rank
  {
    if rank[rb] > rank[ra] then rank[rb] else rank[ra] + 1
  }

  ghost predicate NodeOk<T(!new)>(parent: map<T, T>, root: map<T, T>, rank: map<T, nat>, height: nat, x: T)
    requires root.Keys == parent.Keys == rank.Keys && x in parent
  {
    && parent[x] in parent && root[x] in parent
    && root[parent[x]] == root[x] && parent[root[x]] == root[x] && root[root[x]] == root[x]
    && (parent[x] == x ==> root[x] == x)
    && (parent[x] != x ==> rank[x] < rank[parent[x]])
    && rank[x] <= height
  }

  ghost predicate Ranked<T(!new)>(parent: map<T, T>, root: map<T, T>, rank: map<T, nat>, height: nat) {
    && root.Keys == parent.Keys == rank.Keys
    && forall x {:trigger NodeOk(parent, root, rank, height, x)} | x in parent :: NodeOk(parent, root, rank, height, x)
  }

  lemma {:induction false} Halve<T(!new)>(parent: map<T, T>, root: map<T, T>, rank: map<T, nat>, height: nat, x: T)
    requires Ranked(parent, root, rank, height) && x in parent && parent[x] != x
    ensures parent[x] in parent && parent[parent[x]] in parent
    ensures Ranked(parent[x := parent[parent[x]]], root, rank, height)
    ensures root[parent[parent[x]]] == root[x] && rank[x] < rank[parent[parent[x]]] <= height
  {
    assert NodeOk(parent, root, rank, height, x);
    assert NodeOk(parent, root, rank, height, parent[x]);
    assert NodeOk(parent, root, rank, height, parent[parent[x]]);
    var parent' := parent[x := parent[parent[x]]];
    forall y {:trigger NodeOk(parent', root, rank, height, y)} | y in parent' ensures NodeOk(parent', root, rank, height, y) {
      assert NodeOk(parent, root, rank, height, y);
    }
  }

  lemma {:induction false} Hang<T(!new)>(parent: map<T, T>, root: map<T, T>, rank: map<T, nat>, height: nat, ra: T, rb: T)
    requires Ranked(parent, root, rank, height)
    requires ra in parent && rb in parent && parent[ra] == ra && parent[rb] == rb
    ensures ra == rb ==> Ranked(parent[ra := rb], Merged(root, ra, rb), rank, height)
    ensures ra != rb ==> Ranked(parent[ra := rb], Merged(root, ra, rb), rank[rb := Above(rank, ra, rb)], height + 1)
  {
    assert NodeOk(parent, root, rank, height, ra);
    assert NodeOk(parent, root, rank, height, rb);
    if ra == rb {
      assert parent[ra := rb] == parent && Merged(root, ra, rb) == root;
    } else {
      var p, r, k := parent[ra := rb], Merged(root, ra, rb), rank[rb := Above(rank, ra, rb)];
      forall y {:trigger NodeOk(p, r, k, height + 1, y)} | y in p ensures NodeOk(p, r, k, height + 1, y) {
        assert NodeOk(parent, root, rank, height, y);
      }
    }
  }

  ghost function Merged<T(!new)>(root: map<T, T>, ra: T, rb: T): map<T, T> {
    map x | x in root :: if root[x] == ra then rb else root[x]
  }

  // ----- connectivity -----

  ghost predicate Adjacent<T>(edges: set<(T, T)>, x: T, y: T) {
    (x, y) in edges || (y, x) in edges
  }

  ghost predicate Walk<T>(edges: set<(T, T)>, p: seq<T>) {
    p != [] && forall i | 0 <= i < |p| - 1 :: Adjacent(edges, p[i], p[i + 1])
  }

  ghost predicate WalkFrom<T>(edges: set<(T, T)>, p: seq<T>, x: T, y: T) {
    Walk(edges, p) && p[0] == x && p[|p| - 1] == y
  }

  ghost predicate Connected<T(!new)>(edges: set<(T, T)>, x: T, y: T) {
    exists p: seq<T> :: WalkFrom(edges, p, x, y)
  }

  lemma {:induction false} ConnectedReflexive<T(!new)>(edges: set<(T, T)>, x: T)
    ensures Connected(edges, x, x)
  {
    assert WalkFrom(edges, [x], x, x);
  }

  lemma {:induction false} ConnectedSymmetric<T(!new)>(edges: set<(T, T)>, x: T, y: T)
    requires Connected(edges, x, y)
    ensures Connected(edges, y, x)
  {
    var p :| WalkFrom(edges, p, x, y);
    var q := Reverse(p);
    forall i | 0 <= i < |q| - 1 ensures Adjacent(edges, q[i], q[i + 1]) {
      var k := |p| - 2 - i;
      assert Adjacent(edges, p[k], p[k + 1]);
    }
    assert WalkFrom(edges, q, y, x);
  }

  lemma {:induction false} ConnectedTransitive<T(!new)>(edges: set<(T, T)>, x: T, y: T, z: T)
    requires Connected(edges, x, y) && Connected(edges, y, z)
    ensures Connected(edges, x, z)
  {
    var p :| WalkFrom(edges, p, x, y);
    var q :| WalkFrom(edges, q, y, z);
    var r := p + q[1..];
    forall i | 0 <= i < |r| - 1 ensures Adjacent(edges, r[i], r[i + 1]) {
      if i < |p| - 1 {
        assert Adjacent(edges, p[i], p[i + 1]);
      } else {
        assert Adjacent(edges, q[i - |p| + 1], q[i - |p| + 2]);
      }
    }
    assert WalkFrom(edges, r, x, z);
  }

  lemma {:induction false} ConnectedMonotone<T(!new)>(edges: set<(T, T)>, more: set<(T, T)>, x: T, y: T)
    requires edges <= more && Connected(edges, x, y)
    ensures Connected(more, x, y)
  {
    var p :| WalkFrom(edges, p, x, y);
    forall i | 0 <= i < |p| - 1 ensures Adjacent(more, p[i], p[i + 1]) {
      assert Adjacent(edges, p[i], p[i + 1]);
    }
    assert WalkFrom(more, p, x, y);
  }

  lemma {:induction false} ConnectedByEdge<T(!new)>(edges: set<(T, T)>, x: T, y: T)
    requires Adjacent(edges, x, y)
    ensures Connected(edges, x, y)
  {
    assert WalkFrom(edges, [x, y], x, y);
  }

  /** What every edge keeps, every walk keeps. */
  lemma {:induction false} WalkKeeps<T(!new)>(edges: set<(T, T)>, p: seq<T>, inside: set<T>)
    requires Walk(edges, p) && p[0] in inside
    requires forall e | e in edges :: e.0 in inside <==> e.1 in inside
    ensures p[|p| - 1] in inside
    decreases |p|
  {
    if |p| > 1 {
      var q := p[..|p| - 1];
      assert Walk(edges, q) by {
        forall i | 0 <= i < |q| - 1 ensures Adjacent(edges, q[i], q[i + 1]) {
          assert Adjacent(edges, p[i], p[i + 1]);
        }
      }
      WalkKeeps(edges, q, inside);
      assert Adjacent(edges, p[|p| - 2], p[|p| - 2 + 1]);
    }
  }

  lemma {:induction false} ConnectedKeeps<T(!new)>(edges: set<(T, T)>, x: T, y: T, inside: set<T>)
    requires Connected(edges, x, y) && x in inside
    requires forall e | e in edges :: e.0 in inside <==> e.1 in inside
    ensures y in inside
  {
    var p :| WalkFrom(edges, p, x, y);
    WalkKeeps(edges, p, inside);
  }

  /** The forest's representatives decide connectivity. */
  ghost predicate Decides<T(!new)>(root: map<T, T>, edges: set<(T, T)>) {
    && (forall e | e in edges :: e.0 in root && e.1 in root)
    && forall x, y | x in root && y in root :: root[x] == root[y] <==> Connected(edges, x, y)
  }

  lemma {:induction false} DecidesNothing<T(!new)>(root: map<T, T>)
    requires forall x | x in root :: root[x] == x
    ensures Decides(root, {})
  {
    forall x, y | x in root && y in root ensures root[x] == root[y] <==> Connected({}, x, y) {
      ConnectedReflexive({}, x);
      if Connected({}, x, y) {
        ConnectedKeeps({}, x, y, {x});
      }
    }
  }

  /** Merging two classes decides the graph with one more edge. */
  lemma {:induction false} MergeDecides<T(!new)>(root: map<T, T>, edges: set<(T, T)>, a: T, b: T)
    requires Decides(root, edges) && a in root && b in root
    ensures Decides(Merged(root, root[a], root[b]), edges + {(a, b)})
  {
    var root', edges' := Merged(root, root[a], root[b]), edges + {(a, b)};
    forall x, y | x in root' && y in root' ensures root'[x] == root'[y] <==> Connected(edges', x, y) {
      if root'[x] == root'[y] {
        MergedIsConnected(root, edges, a, b, x, y);
      }
      if Connected(edges', x, y) {
        var cls := set z | z in root' && root'[z] == root'[x];
        forall e | e in edges' ensures e.0 in cls <==> e.1 in cls {
          if e in edges {
            ConnectedByEdge(edges, e.0, e.1);
          }
        }
        ConnectedKeeps(edges', x, y, cls);
      }
    }
  }

  lemma {:induction false} MergedIsConnected<T(!new)>(root: map<T, T>, edges: set<(T, T)>, a: T, b: T, x: T, y: T)
    requires Decides(root, edges) && a in root && b in root && x in root && y in root
    requires Merged(root, root[a], root[b])[x] == Merged(root, root[a], root[b])[y]
    ensures Connected(edges + {(a, b)}, x, y)
  {
    var more := edges + {(a, b)};
    if root[x] == root[y] {
      ConnectedMonotone(edges, more, x, y);
    } else if root[x] == root[a] {
      Bridge(edges, more, x, a, b, y);
    } else {
      Bridge(edges, more, y, a, b, x);
      ConnectedSymmetric(more, y, x);
    }
  }

  lemma {:induction false} Bridge<T(!new)>(edges: set<(T, T)>, more: set<(T, T)>, x: T, a: T, b: T, y: T)
    requires edges <= more && (a, b) in more && Connected(edges, x, a) && Connected(edges, b, y)
    ensures Connected(more, x, y)
  {
    ConnectedMonotone(edges, more, x, a);
    ConnectedMonotone(edges, more, b, y);
    ConnectedByEdge(more, a, b);
    ConnectedTransitive(more, x, a, b);
    ConnectedTransitive(more, x, b, y);
  }
}
