/** Lowest common ancestor of two identifiers in a binary tree.

    `FindPath` records, in a caller's list, the identifiers from the root down
    to the first node (in pre-order) carrying a given identifier, undoing its
    own appends when the search fails. `FindLca` finds both paths and returns
    the last element of their longest common prefix, or -1 when either
    identifier is missing. */
module TreeLca {
  import opened Trees

  datatype Option<T> = None | Some(value: T)

  /** The caller-owned list of identifiers that `FindPath` appends to and
      pops from. */
  class Path {
    var ids: seq<int>

    constructor ()
      ensures ids == []
    {
      ids := [];
    }

    method Append(x: int)
      modifies this
      ensures ids == old(ids) + [x]
    {
      ids := ids + [x];
    }

    /** Removes and returns the last identifier. */
    method Pop() returns (x: int)
      requires ids != []
      modifies this
      ensures ids == old(ids)[..|old(ids)| - 1] && x == old(ids)[|old(ids)| - 1]
    {
      x := ids[|ids| - 1];
      ids := ids[..|ids| - 1];
    }
  }

  /** The root path that the depth-first search reaches first: the node is
      tried before its left subtree, the left subtree before the right one. */
  function PathTo(t: Tree, id: int): (r: Option<seq<int>>)
    ensures r.Some? <==> id in Ids(t)
    ensures r.Some? ==> r.value != [] && r.value[0] == t.identifier && Last(r.value) == id
  {
    match t
    case Nil => None
    case Node(x, l, rt) =>
      if x == id then Some([x])
      else match PathTo(l, id)
        case Some(p) => Some([x] + p)
        case None =>
          match PathTo(rt, id)
          case Some(p) => Some([x] + p)
          case None => None
  }

  /** The path found descends from the root one child per step. */
  lemma {:induction false} PathToIsRootPath(t: Tree, id: int)
    requires id in Ids(t)
    ensures IsRootPath(t, PathTo(t, id).value)
  {
    var Node(x, l, rt) := t;
    if x != id {
      if id in Ids(l) {
        PathToIsRootPath(l, id);
        assert ([x] + PathTo(l, id).value)[1..] == PathTo(l, id).value;
      } else {
        PathToIsRootPath(rt, id);
        assert ([x] + PathTo(rt, id).value)[1..] == PathTo(rt, id).value;
      }
    }
  }

  /** The first path of `ps` that ends at `id`. */
  function FirstEndingAt(ps: seq<seq<int>>, id: int): (r: Option<seq<int>>)
    ensures r.Some? ==> r.value in ps && r.value != [] && Last(r.value) == id
  {
    if ps == [] then None
    else if ps[0] != [] && Last(ps[0]) == id then Some(ps[0])
    else FirstEndingAt(ps[1..], id)
  }

  /** Backtracking search of `root` for `id`, recording the path in
      `currentPath`. On success the root path to the pre-order first match
      has been appended; on failure `currentPath` is as it was. */
  method FindPath(root: Tree, id: int, currentPath: Path) returns (found: bool)
    modifies currentPath
    decreases root
    ensures found <==> id in Ids(root)
    ensures found ==> currentPath.ids == old(currentPath.ids) + PathTo(root, id).value
    ensures !found ==> currentPath.ids == old(currentPath.ids)
  {
    if root.Nil? {
      return false;
    }
    currentPath.Append(root.identifier);
    if root.identifier == id {
      return true;
    }
    var inLeft := false;
    if root.left.Node? {
      inLeft := FindPath(root.left, id, currentPath);
    }
    if inLeft {
      return true;
    }
    var inRight := false;
    if root.right.Node? {
      inRight := FindPath(root.right, id, currentPath);
    }
    if inRight {
      return true;
    }
    var _ := currentPath.Pop();
    return false;
  }

  /** The length of the longest common prefix of `p` and `q`. */
  function CommonPrefixLength(p: seq<int>, q: seq<int>): (k: nat)
    ensures k <= |p| && k <= |q|
    ensures p[..k] == q[..k]
    ensures k == |p| || k == |q| || p[k] != q[k]
  {
    if p == [] || q == [] || p[0] != q[0] then 0
    else
      var k := 1 + CommonPrefixLength(p[1..], q[1..]);
      assert p[..k] == [p[0]] + p[1..][..k - 1];
      assert q[..k] == [q[0]] + q[1..][..k - 1];
      k
  }

  /** The three facts of `CommonPrefixLength`'s contract pin its result down. */
  lemma CommonPrefixLengthUnique(p: seq<int>, q: seq<int>, k: nat)
    requires k <= |p| && k <= |q| && p[..k] == q[..k]
    requires k == |p| || k == |q| || p[k] != q[k]
    ensures k == CommonPrefixLength(p, q)
  {
  }

  /** The value `FindLca` returns: the last identifier the two root paths
      share, or -1 when either identifier is missing from the tree. */
  function Lca(t: Tree, id1: int, id2: int): (r: int)
    ensures id1 !in Ids(t) || id2 !in Ids(t) ==> r == -1
    ensures id1 in Ids(t) && id2 in Ids(t) ==> r in Ids(t)
    ensures -1 !in Ids(t) ==> (r == -1 <==> id1 !in Ids(t) || id2 !in Ids(t))
  {
    match (PathTo(t, id1), PathTo(t, id2))
    case (Some(p), Some(q)) =>
      var k := CommonPrefixLength(p, q);
      PathToIsRootPath(t, id1);
      RootPathInIds(t, p);
      p[k - 1]
    case _ => -1
  }

  /** Finds both root paths into fresh lists, then walks them in step; the
      result is the element before the first index where they stop agreeing. */
  method FindLca(root: Tree, id1: int, id2: int) returns (r: int)
    ensures r == Lca(root, id1, id2)
  {
    var path1 := new Path();
    var path2 := new Path();
    var found1 := FindPath(root, id1, path1);
    if !found1 {
      return -1;
    }
    var found2 := FindPath(root, id2, path2);
    if !found2 {
      return -1;
    }
    var p1, p2 := path1.ids, path2.ids;
    var i := WalkCommonPrefix(p1, p2);
    LcaAtCommonPrefixEnd(root, id1, id2);
    assert p1 == PathTo(root, id1).value && p2 == PathTo(root, id2).value;
    r := p1[i - 1];
  }

  /** The lock-step walk of `FindLca`: `i` advances while both paths have an
      element at `i` and the two elements agree. */
  method WalkCommonPrefix(p1: seq<int>, p2: seq<int>) returns (i: nat)
    ensures i == CommonPrefixLength(p1, p2)
  {
    i := 0;
    while i < |p1| && i < |p2|
      invariant i <= |p1| && i <= |p2|
      invariant p1[..i] == p2[..i]
    {
      if p1[i] != p2[i] {
        break;
      }
      assert p1[..i + 1] == p1[..i] + [p1[i]] && p2[..i + 1] == p2[..i] + [p2[i]];
      i := i + 1;
    }
    CommonPrefixLengthUnique(p1, p2, i);
  }

  // Properties of the search

  /** `PathTo` reports the pre-order first node carrying `id`: of all root
      paths, listed in pre-order, the first that ends at `id`. */
  lemma {:induction false} PathToIsPreorderFirst(t: Tree, id: int)
    ensures PathTo(t, id) == FirstEndingAt(PreorderPaths(t), id)
  {
    match t
    case Nil =>
    case Node(x, l, rt) =>
      var ls, rs := PreorderPaths(l), PreorderPaths(rt);
      assert PreorderPaths(t) == [[x]] + (Prefixed(x, ls) + Prefixed(x, rs));
      assert Last([x]) == x;
      if x != id {
        PathToIsPreorderFirst(l, id);
        PathToIsPreorderFirst(rt, id);
        FirstEndingAtPrefixed(x, ls, id);
        FirstEndingAtPrefixed(x, rs, id);
        FirstEndingAtAppend(Prefixed(x, ls), Prefixed(x, rs), id);
        assert ([[x]] + (Prefixed(x, ls) + Prefixed(x, rs)))[1..] == Prefixed(x, ls) + Prefixed(x, rs);
      }
  }

  lemma {:induction false} FirstEndingAtAppend(ps: seq<seq<int>>, qs: seq<seq<int>>, id: int)
    ensures FirstEndingAt(ps + qs, id) ==
      if FirstEndingAt(ps, id).Some? then FirstEndingAt(ps, id) else FirstEndingAt(qs, id)
  {
    if ps == [] {
      assert ps + qs == qs;
    } else {
      assert (ps + qs)[1..] == ps[1..] + qs;
      FirstEndingAtAppend(ps[1..], qs, id);
    }
  }

  lemma {:induction false} FirstEndingAtPrefixed(x: int, ps: seq<seq<int>>, id: int)
    requires forall i :: 0 <= i < |ps| ==> ps[i] != []
    ensures FirstEndingAt(Prefixed(x, ps), id) ==
      match FirstEndingAt(ps, id)
      case Some(p) => Some([x] + p)
      case None => None
  {
    if ps != [] {
      assert Prefixed(x, ps)[1..] == Prefixed(x, ps[1..]);
      assert Last([x] + ps[0]) == Last(ps[0]);
      FirstEndingAtPrefixed(x, ps[1..], id);
    }
  }

  /** Under unique identifiers the search finds the one root path there is. */
  lemma PathToOfRootPath(t: Tree, p: seq<int>)
    requires Unique(t) && IsRootPath(t, p)
    ensures PathTo(t, Last(p)) == Some(p)
  {
    RootPathInIds(t, p);
    PathToIsRootPath(t, Last(p));
    RootPathUnique(t, PathTo(t, Last(p)).value, p);
  }

  // Properties of the lowest common ancestor

  /** Index `i` holds the last element of the longest common prefix of
      `p` and `q`: the two agree up to and including `i`, and just after it
      one of them ends or they differ. */
  predicate LastCommonIndex(p: seq<int>, q: seq<int>, i: int)
  {
    0 <= i < |p| && i < |q| && p[..i + 1] == q[..i + 1] &&
    (i + 1 == |p| || i + 1 == |q| || p[i + 1] != q[i + 1])
  }

  /** When both identifiers are present, the result is the element at the
      last index the two root paths share. */
  lemma LcaOnBothPaths(t: Tree, id1: int, id2: int)
    requires id1 in Ids(t) && id2 in Ids(t)
    ensures exists i ::
              LastCommonIndex(PathTo(t, id1).value, PathTo(t, id2).value, i) &&
              PathTo(t, id1).value[i] == Lca(t, id1, id2) == PathTo(t, id2).value[i]
  {
    var p, q := PathTo(t, id1).value, PathTo(t, id2).value;
    var k := CommonPrefixLength(p, q);
    assert p[..k][k - 1] == q[..k][k - 1];
    assert LastCommonIndex(p, q, k - 1);
  }

  /** The result does not depend on the order of the two identifiers. */
  lemma LcaSymmetric(t: Tree, id1: int, id2: int)
    ensures Lca(t, id1, id2) == Lca(t, id2, id1)
  {
  }

  /** A present identifier is its own lowest common ancestor. */
  lemma LcaSelf(t: Tree, id: int)
    requires id in Ids(t)
    ensures Lca(t, id, id) == id
  {
  }

  /** `c` is an ancestor of the node carrying `x` (a node is its own ancestor). */
  ghost predicate IsAncestor(t: Tree, c: int, x: int)
  {
    exists p :: IsRootPath(t, p) && Last(p) == x && c in p
  }

  /** Under unique identifiers the result is the lowest common ancestor: an
      ancestor of both nodes, below every other common ancestor. */
  lemma LcaIsLowestCommonAncestor(t: Tree, id1: int, id2: int)
    requires Unique(t) && id1 in Ids(t) && id2 in Ids(t)
    ensures IsAncestor(t, Lca(t, id1, id2), id1) && IsAncestor(t, Lca(t, id1, id2), id2)
    ensures forall c :: IsAncestor(t, c, id1) && IsAncestor(t, c, id2) ==> IsAncestor(t, c, Lca(t, id1, id2))
  {
    var p, q := PathTo(t, id1).value, PathTo(t, id2).value;
    LcaAtCommonPrefixEnd(t, id1, id2);
    PathToIsRootPath(t, id1);
    PathToIsRootPath(t, id2);
    assert IsRootPath(t, p) && Last(p) == id1 && Lca(t, id1, id2) in p;
    assert IsRootPath(t, q) && Last(q) == id2 && Lca(t, id1, id2) in q;
    forall c | IsAncestor(t, c, id1) && IsAncestor(t, c, id2)
      ensures IsAncestor(t, c, Lca(t, id1, id2))
    {
      CommonAncestorAboveLca(t, id1, id2, c);
    }
  }

  /** Why `LcaIsLowestCommonAncestor` needs unique identifiers: in
      1(2(3), 2(4)) the result for 3 and 4 is 2, yet the node 2 on the left
      has no 4 below it and the node 2 on the right has no 3 below it, so no
      single node carrying 2 is an ancestor of both. */
  lemma RepeatedIdentifierLca()
    ensures var t := Node(1, Node(2, Node(3, Nil, Nil), Nil), Node(2, Node(4, Nil, Nil), Nil));
      !Unique(t) && Lca(t, 3, 4) == 2 &&
      t.left.identifier == 2 && 4 !in Ids(t.left) &&
      t.right.identifier == 2 && 3 !in Ids(t.right)
  {
  }

  /** The result is the last element of the common prefix of the two root paths. */
  lemma LcaAtCommonPrefixEnd(t: Tree, id1: int, id2: int)
    requires id1 in Ids(t) && id2 in Ids(t)
    ensures var p, q := PathTo(t, id1).value, PathTo(t, id2).value;
      var k := CommonPrefixLength(p, q);
      1 <= k && Lca(t, id1, id2) == p[k - 1] == q[k - 1]
  {
    var p, q := PathTo(t, id1).value, PathTo(t, id2).value;
    var k := CommonPrefixLength(p, q);
    assert p != [] && q != [] && p[0] == q[0];
    assert p[..k][k - 1] == q[..k][k - 1];
  }

  /** Every common ancestor of the two nodes is an ancestor of the result. */
  lemma CommonAncestorAboveLca(t: Tree, id1: int, id2: int, c: int)
    requires Unique(t) && id1 in Ids(t) && id2 in Ids(t)
    requires IsAncestor(t, c, id1) && IsAncestor(t, c, id2)
    ensures IsAncestor(t, c, Lca(t, id1, id2))
  {
    var pc :| IsRootPath(t, pc) && Last(pc) == id1 && c in pc;
    var qc :| IsRootPath(t, qc) && Last(qc) == id2 && c in qc;
    PathToOfRootPath(t, pc);
    PathToOfRootPath(t, qc);
    LcaAtCommonPrefixEnd(t, id1, id2);
    var k := CommonPrefixLength(pc, qc);
    SharedInCommonPrefix(t, pc, qc, c);
    RootPathPrefix(t, pc, k);
    var w := pc[..k];
    assert IsRootPath(t, w) && Last(w) == Lca(t, id1, id2) && c in w;
  }

  /** Under unique identifiers, an identifier on two root paths lies in their
      common prefix. */
  lemma SharedInCommonPrefix(t: Tree, p: seq<int>, q: seq<int>, c: int)
    requires Unique(t) && IsRootPath(t, p) && IsRootPath(t, q) && c in p && c in q
    ensures c in p[..CommonPrefixLength(p, q)]
  {
    var i :| 0 <= i < |p| && p[i] == c;
    var j :| 0 <= j < |q| && q[j] == c;
    SameDepth(t, p, q, i, j);
    WithinCommonPrefix(p, q, i);
  }

  /** Under unique identifiers, two root paths that meet the same identifier
      meet it at the same depth, along the same prefix. */
  lemma SameDepth(t: Tree, p: seq<int>, q: seq<int>, i: nat, j: nat)
    requires Unique(t) && IsRootPath(t, p) && IsRootPath(t, q)
    requires i < |p| && j < |q| && p[i] == q[j]
    ensures i == j && p[..i + 1] == q[..i + 1]
  {
    var pi, qj := p[..i + 1], q[..j + 1];
    RootPathPrefix(t, p, i + 1);
    RootPathPrefix(t, q, j + 1);
    assert Last(pi) == p[i] && Last(qj) == q[j];
    RootPathUnique(t, pi, qj);
  }

  /** Paths that agree up to and including index `i` share a prefix longer than `i`. */
  lemma WithinCommonPrefix(p: seq<int>, q: seq<int>, i: nat)
    requires i < |p| && i < |q| && p[..i + 1] == q[..i + 1]
    ensures i < CommonPrefixLength(p, q) && p[..CommonPrefixLength(p, q)][i] == p[i]
  {
  }
}
