# Lowest common ancestor in a binary tree

A model, in Dafny, of the binary-tree lowest-common-ancestor routine of the
`LCA` repository. The repository contains this routine twice: in `code/lca.py`
and in `lca.py`, lines 3-45. The two copies differ only in how `Node` is
declared and in their comments. One model covers both. The table cites
`code/lca.py` unless a row says otherwise.

- `trees.dfy`, module `Trees`: `Node` (code/lca.py:5-10) becomes
  `datatype Tree = Nil | Node(identifier, left, right)`, where `Nil` is an
  absent child (Python `None`). The module also defines what the proofs need
  about trees:
  - `Ids`: the identifiers that occur in a tree.
  - `IsRootPath`: a sequence of identifiers that starts at the root and goes
    down one child per element, so its length is the depth of its last node
    plus one.
  - `PreorderPaths`: the root path of every node, with the nodes taken in
    pre-order.
  - `Unique`: no identifier occurs twice.
- `lca.dfy`, module `TreeLca`: the static methods of class `LCA`.
  - The caller's list that `find_path` appends to and pops from becomes
    class `Path`, whose field `ids: seq<int>` is reassigned by `Append` and
    `Pop`.
  - `FindPath` is the recursive backtracking search. It is an imperative
    method with `modifies currentPath`, proved against the pure function
    `PathTo`.
  - `FindLca` is `find_LCA`. It makes two fresh lists, searches for both
    identifiers, and returns -1 if either search fails. Otherwise it walks
    both paths in step and returns `path_1[i-1]`.
  - `WalkCommonPrefix` is that walk: the `while` loop of code/lca.py:52-56.
    Its loop invariant is that the two paths agree on their first `i`
    elements. Its result is specified by `CommonPrefixLength`.
  - The function `Lca` describes what `FindLca` returns. The lemmas after it
    prove what that result means.
- `examples_test.dfy`, module `LcaExamples`: the fixtures of
  `code/lca_test.py` with the answers those tests expect, and the tree and
  the seven queries of `main` in `lca.py`. They are proved
  about the functions, and `Scenarios` reaches some of them through the
  methods' contracts.

## Model

| member | source | states |
|---|---|---|
| `TreeLca.Path.constructor` | code/lca.py:46-47 | a new list is empty |
| `TreeLca.Path.Append` | code/lca.py:27 | `append` adds the identifier at the end and changes nothing else in the list |
| `TreeLca.Path.Pop` | code/lca.py:35 | `pop` removes the last identifier and returns it; the rest of the list is kept |
| `TreeLca.PathTo` | code/lca.py:24-36 | the search succeeds exactly when `id` occurs in the tree; the path it finds is non-empty, starts with the root's identifier and ends with `id`; an empty tree gives no path |
| `TreeLca.PathToIsRootPath` | code/lca.py:27-33 | each next identifier of the path found is a child of the previous one, from the root down to the match, so the length is the match's depth plus one |
| `TreeLca.PathToIsPreorderFirst` | code/lca.py:28-33 | of all root paths, listed in pre-order (node, left subtree, right subtree), the search reports the first one that ends at `id`; the right subtree is used only when the left has no match, and with repeated identifiers the pre-order first match wins |
| `Trees.PreorderPaths` | code/lca.py:31-32 | every listed path is a root path |
| `Trees.RootPathListed` | code/lca.py:31-32 | every root path of the tree is listed, so the pre-order list holds exactly the root paths |
| `TreeLca.FindPath` | code/lca.py:16-36 | returns True exactly when `id` occurs in the tree; on True, exactly the path `PathTo` finds has been appended to `current_path`; on False, `current_path` is as it was (this covers the `None` root and the balancing `pop`) |
| `TreeLca.CommonPrefixLength` | code/lca.py:52-56 | the two paths agree on their first `k` elements, and at index `k` one of them has ended or they differ |
| `TreeLca.CommonPrefixLengthUnique` | code/lca.py:53-55 | any index with those three properties is the common-prefix length, so the loop's stopping point is determined |
| `TreeLca.WalkCommonPrefix` | code/lca.py:52-56 | the lock-step loop stops exactly at the common-prefix length of the two paths |
| `TreeLca.Lca` | code/lca.py:46-57 | -1 when either identifier is absent, including for an empty tree; otherwise an identifier of the tree; if no node carries -1, the result is -1 exactly when an identifier is missing |
| `TreeLca.FindLca` | code/lca.py:39-57 | `find_LCA` returns `Lca`; the index `i - 1` it reads is never negative, because both paths start with the root's identifier |
| `TreeLca.LcaOnBothPaths` | code/lca.py:52-57 | when both identifiers are present, the result is at the same index of both paths, which is the last index of their common prefix |
| `TreeLca.LcaAtCommonPrefixEnd` | lca.py:40-45 | the common-prefix length is at least 1, and the result is the element just before it on either path |
| `TreeLca.LcaSymmetric` | code/lca.py:52-57 | swapping the two identifiers does not change the result |
| `TreeLca.LcaSelf` | lca.py:40-45 | for a present identifier `x`, the LCA of `x` with itself is `x` (the demo call at lca.py:73) |
| `TreeLca.LcaIsLowestCommonAncestor` | code/lca.py:42-44 | with unique identifiers, the result is an ancestor of both nodes (a node is its own ancestor), and every common ancestor of the two is an ancestor of the result |
| `TreeLca.CommonAncestorAboveLca` | code/lca.py:52-57 | with unique identifiers, a common ancestor of both nodes lies on the root path of the result |
| `TreeLca.PathToOfRootPath` | code/lca.py:19-23 | with unique identifiers, the search for a node's identifier finds that node's only root path |
| `TreeLca.RepeatedIdentifierLca` | code/lca.py:42-57 | with repeated identifiers the result need not be a common ancestor: in 1(2(3), 2(4)) the result for 3 and 4 is 2, but the left node 2 has no 4 below it and the right node 2 has no 3 below it |
| `Trees.RootPathUnique` | code/lca.py:5-10 | with unique identifiers, a node has one root path |
| `LcaExamples.PathToFour` | code/lca_test.py:65 | `find_path(4)` gives `[1, 2, 4]` |
| `LcaExamples.PathToNine` | code/lca_test.py:66 | `find_path(9)` gives `[1, 3, 7, 9]` |
| `LcaExamples.PathToOne` | code/lca_test.py:67 | `find_path(1)` gives `[1]` |
| `LcaExamples.PathToEight` | code/lca_test.py:68 | `find_path(8)` gives `[1, 2, 5, 8]` |
| `LcaExamples.PathToTen` | code/lca_test.py:69 | `find_path(10)` gives `[1, 3, 7, 9, 10]` |
| `LcaExamples.ValidTreeMissingPath` | code/lca_test.py:70 | `find_path(228)` fails |
| `LcaExamples.SmallTreePaths` | code/lca_test.py:80-93 | the empty tree and the one-node tree give the expected paths |
| `LcaExamples.LcaFourEight` | code/lca_test.py:104 | LCA(4, 8) = 2 |
| `LcaExamples.LcaTenSix` | code/lca_test.py:105 | LCA(10, 6) = 3 |
| `LcaExamples.LcaSevenSeven` | code/lca_test.py:106 | LCA(7, 7) = 7 |
| `LcaExamples.LcaSixSeven` | code/lca_test.py:107 | LCA(6, 7) = 3 |
| `LcaExamples.LcaOneTen` | code/lca_test.py:108 | LCA(1, 10) = 1 |
| `LcaExamples.EmptyTreeLcas` | code/lca_test.py:114-121 | every query on the empty tree gives -1 |
| `LcaExamples.OnlyRootLcas` | code/lca_test.py:123-131 | on the one-node tree, LCA(1, 1) = 1 and every other query gives -1 |
| `LcaExamples.DemoLcaFourFive` | lca.py:67 | LCA(4, 5) = 2 on the tree `main` builds |
| `LcaExamples.DemoLcaThreeFour` | lca.py:68 | LCA(3, 4) = 1 on the tree `main` builds |
| `LcaExamples.DemoLcaFourSeven` | lca.py:69 | LCA(4, 7) = 1 on the tree `main` builds |
| `LcaExamples.DemoLcaFiveThree` | lca.py:70 | LCA(5, 3) = 1 on the tree `main` builds |
| `LcaExamples.DemoLcaSixSeven` | lca.py:71 | LCA(6, 7) = 3 on the tree `main` builds |
| `LcaExamples.DemoLcaOneTwo` | lca.py:72 | LCA(1, 2) = 1 on the tree `main` builds |
| `LcaExamples.DemoLcaOneOne` | lca.py:73 | LCA(1, 1) = 1 on the tree `main` builds |

## Left out

- The DAG form of the lowest common ancestor is not part of this model. It
  covers root discovery, ancestor sets and sinks of an induced subgraph. None
  of the Python files modelled here implements it.
- `main` in lca.py:48-76 only builds a fixed tree and prints results, so the
  function itself is not modelled. Its tree (lca.py:59-65) is `DemoTree`, and
  its seven queries are the `DemoLca` lemmas of `LcaExamples`. The unit-test
  harness, its `parameterized` fixtures and its logging setup are not
  modelled either. The fixtures appear only as the `LcaExamples` lemmas.
- Python truthiness of `root.left` / `root.right` is modelled as a test for
  `Nil`. Nodes are always truthy, so the behaviour is the same.
- `Node` objects are mutable in Python and could be shared or form cycles.
  The model's `Tree` is a finite value with no sharing, the strict tree that
  the code assumes. Mutation during a search is not modelled.
- Python's recursion limit is not modelled. Very deep trees would make the
  Python code raise `RecursionError`.
- `path_1[i-1]` with `i == 0` would read the last element in Python.
  `FindLca` proves that this case cannot happen, so Python's negative
  indexing is not modelled.
- The loop of `find_LCA` lives in its own method, `WalkCommonPrefix`, which
  `FindLca` calls. This keeps the loop's proof separate from the facts about
  the two searches. The loop itself is unchanged.
- TreeLca.LcaIsLowestCommonAncestor: holds only for trees whose identifiers
  are unique. The code never checks this, and the tree model it is written for
  assumes it. With repeated identifiers the code compares identifiers, not
  nodes, and can return an identifier that no single common ancestor carries;
  `RepeatedIdentifierLca` proves this for the tree 1(2(3), 2(4)).
- A tree node with identifier -1 makes the -1 "not found" result ambiguous.
  The model returns -1 unchanged, as the code does. `Lca` states the exact
  meaning of -1 only for trees in which no node carries -1.
