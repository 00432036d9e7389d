/** Binary trees of identified nodes, and root paths through them.

    A `Node` owns an optional left and an optional right child; an absent
    child is `Nil`. A root path lists the identifiers of the nodes met when
    descending from the root of a tree, one child per step. */
module Trees {

  datatype Tree = Nil | Node(identifier: int, left: Tree, right: Tree)

  /** The identifiers that occur in a tree. */
  function Ids(t: Tree): set<int>
  {
    match t
    case Nil => {}
    case Node(x, l, r) => {x} + Ids(l) + Ids(r)
  }

  function Last(p: seq<int>): int
    requires p != []
  {
    p[|p| - 1]
  }

  /** `p` starts at the root of `t` and each next element is a child of the
      node named by the element before it. */
  predicate IsRootPath(t: Tree, p: seq<int>)
    decreases t
  {
    t.Node? && p != [] && p[0] == t.identifier &&
    (|p| == 1 || IsRootPath(t.left, p[1..]) || IsRootPath(t.right, p[1..]))
  }

  /** No identifier occurs at two nodes of `t`. */
  ghost predicate Unique(t: Tree)
  {
    match t
    case Nil => true
    case Node(x, l, r) =>
      x !in Ids(l) && x !in Ids(r) && Ids(l) !! Ids(r) && Unique(l) && Unique(r)
  }

  /** The root path of every node of `t`, the nodes taken in pre-order
      (a node, then its left subtree, then its right subtree). */
  function PreorderPaths(t: Tree): (ps: seq<seq<int>>)
    ensures forall i :: 0 <= i < |ps| ==> IsRootPath(t, ps[i])
  {
    match t
    case Nil => []
    case Node(x, l, r) =>
      var ls, rs := PreorderPaths(l), PreorderPaths(r);
      var ps := [[x]] + Prefixed(x, ls) + Prefixed(x, rs);
      assert forall i :: 0 <= i < |ls| ==> ([x] + ls[i])[1..] == ls[i];
      assert forall i :: 0 <= i < |rs| ==> ([x] + rs[i])[1..] == rs[i];
      ps
  }

  /** Every path of `ps`, extended at the front by `x`. */
  function Prefixed(x: int, ps: seq<seq<int>>): (qs: seq<seq<int>>)
    ensures |qs| == |ps|
    ensures forall i :: 0 <= i < |ps| ==> qs[i] == [x] + ps[i]
  {
    if ps == [] then [] else [[x] + ps[0]] + Prefixed(x, ps[1..])
  }

  /** Every element of a root path is an identifier of the tree. */
  lemma {:induction false} RootPathInIds(t: Tree, p: seq<int>)
    requires IsRootPath(t, p)
    ensures forall i :: 0 <= i < |p| ==> p[i] in Ids(t)
  {
    if |p| > 1 {
      if IsRootPath(t.left, p[1..]) {
        RootPathInIds(t.left, p[1..]);
      } else {
        RootPathInIds(t.right, p[1..]);
      }
      assert forall i :: 1 <= i < |p| ==> p[i] == p[1..][i - 1];
    }
  }

  /** A non-empty prefix of a root path is a root path. */
  lemma {:induction false} RootPathPrefix(t: Tree, p: seq<int>, k: nat)
    requires IsRootPath(t, p) && 1 <= k <= |p|
    ensures IsRootPath(t, p[..k])
  {
    if k > 1 {
      assert p[..k][1..] == p[1..][..k - 1];
      if IsRootPath(t.left, p[1..]) {
        RootPathPrefix(t.left, p[1..], k - 1);
      } else {
        RootPathPrefix(t.right, p[1..], k - 1);
      }
    }
  }

  /** In a tree without repeated identifiers, a node has only one root path. */
  lemma {:induction false} RootPathUnique(t: Tree, p: seq<int>, q: seq<int>)
    requires Unique(t) && IsRootPath(t, p) && IsRootPath(t, q)
    requires Last(p) == Last(q)
    ensures p == q
  {
    if |p| == 1 && |q| == 1 {
    } else if |p| == 1 {
      InSubtree(t, q);
    } else if |q| == 1 {
      InSubtree(t, p);
    } else {
      assert Last(p[1..]) == Last(p) && Last(q[1..]) == Last(q);
      if IsRootPath(t.left, p[1..]) && IsRootPath(t.left, q[1..]) {
        RootPathUnique(t.left, p[1..], q[1..]);
      } else if IsRootPath(t.right, p[1..]) && IsRootPath(t.right, q[1..]) {
        RootPathUnique(t.right, p[1..], q[1..]);
      } else {
        RootPathInIds(t.left, if IsRootPath(t.left, p[1..]) then p[1..] else q[1..]);
        RootPathInIds(t.right, if IsRootPath(t.right, p[1..]) then p[1..] else q[1..]);
        assert false;
      }
      assert p == [p[0]] + p[1..] && q == [q[0]] + q[1..];
    }
  }

  /** A root path longer than one ends below the root, so (in a tree without
      repeated identifiers) it does not end at the root's identifier. */
  lemma InSubtree(t: Tree, p: seq<int>)
    requires Unique(t) && IsRootPath(t, p) && |p| > 1
    ensures Last(p) != t.identifier
  {
    assert Last(p[1..]) == Last(p);
    if IsRootPath(t.left, p[1..]) {
      RootPathInIds(t.left, p[1..]);
    } else {
      RootPathInIds(t.right, p[1..]);
    }
  }

  /** Every root path of `t` is listed by `PreorderPaths`. */
  lemma {:induction false} RootPathListed(t: Tree, p: seq<int>)
    requires IsRootPath(t, p)
    ensures p in PreorderPaths(t)
  {
    var Node(x, l, r) := t;
    var ls, rs := PreorderPaths(l), PreorderPaths(r);
    assert PreorderPaths(t) == [[x]] + Prefixed(x, ls) + Prefixed(x, rs);
    if |p| == 1 {
      assert p == [x];
    } else {
      assert p == [x] + p[1..];
      if IsRootPath(l, p[1..]) {
        RootPathListed(l, p[1..]);
        PrefixedHas(x, ls, p[1..]);
      } else {
        RootPathListed(r, p[1..]);
        PrefixedHas(x, rs, p[1..]);
      }
    }
  }

  lemma PrefixedHas(x: int, ps: seq<seq<int>>, q: seq<int>)
    requires q in ps
    ensures [x] + q in Prefixed(x, ps)
  {
  }
}
