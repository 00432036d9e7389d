/** The fixtures of the unit tests, with the answers the tests expect, and
    the tree and queries of the demo `main`. */
module LcaExamples {
  import opened Trees
  import opened TreeLca

  /** The tree
          1
         / \
        2   3
       / \ / \
      4  5 6  7
        /      \
       8        9
               /
              10                                                        */
  function ValidTree(): Tree
  {
    Node(1,
      Node(2, Node(4, Nil, Nil), Node(5, Node(8, Nil, Nil), Nil)),
      Node(3, Node(6, Nil, Nil), Node(7, Nil, Node(9, Node(10, Nil, Nil), Nil))))
  }

  function OnlyRoot(): Tree
  {
    Node(1, Nil, Nil)
  }

  function LeftHalf(): Tree
  {
    Node(2, Node(4, Nil, Nil), Node(5, Node(8, Nil, Nil), Nil))
  }

  function RightHalf(): Tree
  {
    Node(3, Node(6, Nil, Nil), Node(7, Nil, Node(9, Node(10, Nil, Nil), Nil)))
  }

  function Five(): Tree
  {
    Node(5, Node(8, Nil, Nil), Nil)
  }

  function Seven(): Tree
  {
    Node(7, Nil, Node(9, Node(10, Nil, Nil), Nil))
  }

  lemma PathToOne()
    ensures PathTo(ValidTree(), 1) == Some([1])
  {
  }

  lemma PathToFour()
    ensures PathTo(ValidTree(), 4) == Some([1, 2, 4])
  {
    assert ValidTree() == Node(1, LeftHalf(), RightHalf());
    assert PathTo(Node(4, Nil, Nil), 4) == Some([4]);
    assert [2] + [4] == [2, 4] && [1] + [2, 4] == [1, 2, 4];
    assert PathTo(LeftHalf(), 4) == Some([2, 4]);
  }

  lemma PathToEight()
    ensures PathTo(ValidTree(), 8) == Some([1, 2, 5, 8])
  {
    assert ValidTree() == Node(1, LeftHalf(), RightHalf());
    assert LeftHalf() == Node(2, Node(4, Nil, Nil), Five());
    assert PathTo(Node(8, Nil, Nil), 8) == Some([8]);
    assert [5] + [8] == [5, 8] && [2] + [5, 8] == [2, 5, 8] && [1] + [2, 5, 8] == [1, 2, 5, 8];
    assert PathTo(Five(), 8) == Some([5, 8]);
    assert PathTo(Node(4, Nil, Nil), 8) == None;
    assert PathTo(LeftHalf(), 8) == Some([2, 5, 8]);
  }

  lemma PathToNine()
    ensures PathTo(ValidTree(), 9) == Some([1, 3, 7, 9])
  {
    assert ValidTree() == Node(1, LeftHalf(), RightHalf());
    assert RightHalf() == Node(3, Node(6, Nil, Nil), Seven());
    assert 9 !in Ids(LeftHalf()) && 9 !in Ids(Node(6, Nil, Nil));
    assert PathTo(Node(9, Node(10, Nil, Nil), Nil), 9) == Some([9]);
    assert [7] + [9] == [7, 9] && [3] + [7, 9] == [3, 7, 9] && [1] + [3, 7, 9] == [1, 3, 7, 9];
    assert PathTo(Seven(), 9) == Some([7, 9]);
    assert PathTo(RightHalf(), 9) == Some([3, 7, 9]);
  }

  lemma PathToTen()
    ensures PathTo(ValidTree(), 10) == Some([1, 3, 7, 9, 10])
  {
    assert ValidTree() == Node(1, LeftHalf(), RightHalf());
    assert RightHalf() == Node(3, Node(6, Nil, Nil), Seven());
    assert 10 !in Ids(LeftHalf()) && 10 !in Ids(Node(6, Nil, Nil));
    var nine := Node(9, Node(10, Nil, Nil), Nil);
    assert PathTo(Node(10, Nil, Nil), 10) == Some([10]);
    assert [9] + [10] == [9, 10] && [7] + [9, 10] == [7, 9, 10] && [3] + [7, 9, 10] == [3, 7, 9, 10];
    assert [1] + [3, 7, 9, 10] == [1, 3, 7, 9, 10];
    assert PathTo(nine, 10) == Some([9, 10]);
    assert PathTo(Seven(), 10) == Some([7, 9, 10]);
    assert PathTo(RightHalf(), 10) == Some([3, 7, 9, 10]);
  }

  lemma ValidTreeMissingPath()
    ensures PathTo(ValidTree(), 228) == None
  {
  }

  lemma SmallTreePaths()
    ensures PathTo(Nil, 2) == None
    ensures PathTo(OnlyRoot(), 2) == None
    ensures PathTo(OnlyRoot(), 1) == Some([1])
  {
  }

  lemma LcaFourEight()
    ensures Lca(ValidTree(), 4, 8) == 2
  {
  }

  lemma LcaOneTen()
    ensures Lca(ValidTree(), 1, 10) == 1
  {
  }

  lemma LcaTenSix()
    ensures Lca(ValidTree(), 10, 6) == 3
  {
  }

  lemma LcaSixSeven()
    ensures Lca(ValidTree(), 6, 7) == 3
  {
  }

  lemma LcaSevenSeven()
    ensures Lca(ValidTree(), 7, 7) == 7
  {
  }

  lemma EmptyTreeLcas()
    ensures Lca(Nil, 55, 99) == -1 && Lca(Nil, 1, 1) == -1 && Lca(Nil, 7, 7) == -1
  {
  }

  lemma OnlyRootLcas()
    ensures Lca(OnlyRoot(), 10, 1) == -1 && Lca(OnlyRoot(), 1, 1) == 1
    ensures Lca(OnlyRoot(), 7, 7) == -1 && Lca(OnlyRoot(), 1, 99) == -1
  {
  }

  /** The tree built by the demo `main`:
          1
         / \
        2   3
       / \ / \
      4  5 6  7                                                         */
  function DemoTree(): Tree
  {
    Node(1,
      Node(2, Node(4, Nil, Nil), Node(5, Nil, Nil)),
      Node(3, Node(6, Nil, Nil), Node(7, Nil, Nil)))
  }

  /** The seven queries of the demo `main`, one lemma each. */
  lemma DemoLcaFourFive()
    ensures Lca(DemoTree(), 4, 5) == 2
  {
  }

  lemma DemoLcaThreeFour()
    ensures Lca(DemoTree(), 3, 4) == 1
  {
  }

  lemma DemoLcaFourSeven()
    ensures Lca(DemoTree(), 4, 7) == 1
  {
  }

  lemma DemoLcaFiveThree()
    ensures Lca(DemoTree(), 5, 3) == 1
  {
  }

  lemma DemoLcaSixSeven()
    ensures Lca(DemoTree(), 6, 7) == 3
  {
  }

  lemma DemoLcaOneTwo()
    ensures Lca(DemoTree(), 1, 2) == 1
  {
  }

  lemma DemoLcaOneOne()
    ensures Lca(DemoTree(), 1, 1) == 1
  {
  }

  /** The search and the walk, run on the fixtures through their contracts. */
  method Scenarios()
  {
    var path := new Path();
    var found := FindPath(ValidTree(), 228, path);
    ValidTreeMissingPath();
    assert !found && path.ids == [];
    found := FindPath(ValidTree(), 10, path);
    PathToTen();
    assert found && path.ids == [1, 3, 7, 9, 10];
    var empty := new Path();
    found := FindPath(Nil, 2, empty);
    assert !found && empty.ids == [];
    var r := FindLca(ValidTree(), 4, 8);
    LcaFourEight();
    assert r == 2;
    r := FindLca(OnlyRoot(), 1, 99);
    OnlyRootLcas();
    assert r == -1;
  }
}
