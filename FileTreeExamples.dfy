/**
 * Worked examples of the explorer's tree building on concrete path lists: the lookup after each
 * path is written out slot by slot, checked against the walk, and read off into the nested tree.
 */
module FileTreeExamples {
  import opened Wrappers
  import opened Strings
  import opened FileTree

  const PathAB := "a/b"
  const PathAC := "a/c"
  const PathADE := "a/d/e"

  /** The lookup after `a/b`. */
  function AfterAB(): PathMap {
    PathMap(Seed().index["a" := 1][PathAB := 2],
      [Slot("", "", Directory, Some([1])), Slot("a", "a", Directory, Some([2])),
       Slot("b", PathAB, File, None)])
  }

  /** The lookup after `a/b` and `a/c`. */
  function AfterABAC(): PathMap {
    PathMap(AfterAB().index[PathAC := 3],
      [Slot("", "", Directory, Some([1])), Slot("a", "a", Directory, Some([2, 3])),
       Slot("b", PathAB, File, None), Slot("c", PathAC, File, None)])
  }

  /** The lookup after `a/b`, `a/c` and `a/d/e`. */
  function AfterNested(): PathMap {
    PathMap(AfterABAC().index["a/d" := 4][PathADE := 5],
      [Slot("", "", Directory, Some([1])), Slot("a", "a", Directory, Some([2, 3, 4])),
       Slot("b", PathAB, File, None), Slot("c", PathAC, File, None),
       Slot("d", "a/d", Directory, Some([5])), Slot("e", PathADE, File, None)])
  }

  lemma Step1()
    ensures InsertPath(Seed(), PathAB) == AfterAB()
  {
    SplitWithoutSeparator("a", '/');
    SplitWithoutSeparator("b", '/');
    SplitAround("a", "b", '/');
    assert "a" + ['/'] + "b" == PathAB;
    var parts := ["a", "b"];
    assert [] + [1] == [1];
    assert [] + [2] == [2];
    var v1 := Visit(Seed(), "", "a", false);
    assert v1 == PathMap(Seed().index["a" := 1],
      [Slot("", "", Directory, Some([1])), Slot("a", "a", Directory, Some([]))]);
    var v2 := Visit(v1, "a", "b", true);
    assert v2 == AfterAB();
  }

  lemma Step2()
    ensures InsertPath(AfterAB(), PathAC) == AfterABAC()
  {
    SplitWithoutSeparator("a", '/');
    SplitWithoutSeparator("c", '/');
    SplitAround("a", "c", '/');
    assert "a" + ['/'] + "c" == PathAC;
    assert [2] + [3] == [2, 3];
    assert Visit(AfterAB(), "", "a", false) == AfterAB();
    assert Visit(AfterAB(), "a", "c", true) == AfterABAC();
  }

  /** The lookup while walking `a/d/e`, once the directory `a/d` is recorded. */
  function WalkingADE(): PathMap {
    PathMap(AfterABAC().index["a/d" := 4],
      [Slot("", "", Directory, Some([1])), Slot("a", "a", Directory, Some([2, 3, 4])),
       Slot("b", PathAB, File, None), Slot("c", PathAC, File, None),
       Slot("d", "a/d", Directory, Some([]))])
  }

  lemma SplitADE()
    ensures Split(PathADE, '/') == ["a", "d", "e"]
  {
    SplitWithoutSeparator("a", '/');
    SplitWithoutSeparator("d", '/');
    SplitWithoutSeparator("e", '/');
    SplitAround("d", "e", '/');
    SplitAround("a", "d/e", '/');
    assert "d" + ['/'] + "e" == "d/e";
    assert "a" + ['/'] + "d/e" == PathADE;
  }

  lemma Step3a()
    ensures Visit(AfterABAC(), "a", "d", false) == WalkingADE()
  {
    assert Extend("a", "d") == "a/d";
    assert [2, 3] + [4] == [2, 3, 4];
  }

  lemma Step3b()
    ensures Visit(WalkingADE(), "a/d", "e", true) == AfterNested()
  {
    assert Extend("a/d", "e") == PathADE;
    assert [] + [5] == [5];
  }

  lemma Step3()
    ensures InsertPath(AfterABAC(), PathADE) == AfterNested()
  {
    SplitADE();
    var parts := ["a", "d", "e"];
    assert Visit(AfterABAC(), "", "a", false) == AfterABAC();
    assert Walk(AfterABAC(), parts, 0, "") == Walk(AfterABAC(), parts, 1, "a");
    Step3a();
    assert Walk(AfterABAC(), parts, 1, "a") == Walk(WalkingADE(), parts, 2, "a/d");
    Step3b();
    assert Walk(WalkingADE(), parts, 2, "a/d") == AfterNested();
  }

  lemma ExampleBuild()
    ensures BuildPathMap([PathAB, PathAC, PathADE]) == AfterNested()
  {
    var paths := [PathAB, PathAC, PathADE];
    assert paths[..2] == [PathAB, PathAC];
    assert paths[..2][..1] == [PathAB];
    assert [PathAB][..0] == [];
    Step1();
    assert BuildPathMap([PathAB]) == AfterAB();
    Step2();
    assert BuildPathMap([PathAB, PathAC]) == AfterABAC();
    Step3();
  }

  lemma ExampleValid()
    ensures Valid(AfterNested())
  {
    ExampleBuild();
    BuildPathMapValid([PathAB, PathAC, PathADE]);
  }

  lemma ExampleTree()
    ensures Valid(AfterNested())
    ensures RootChildren(AfterNested()) == [
        FileTreeNode("a", "a", Directory, Present([
          FileTreeNode("b", PathAB, File, Absent),
          FileTreeNode("c", PathAC, File, Absent),
          FileTreeNode("d", "a/d", Directory, Present([
            FileTreeNode("e", PathADE, File, Absent)]))]))]
  {
    ExampleValid();
    var m := AfterNested();
    var e := FileTreeNode("e", PathADE, File, Absent);
    assert Materialize(m, 5) == e;
    assert MaterializeAll(m, 4, [5]) == [e];
    var d := FileTreeNode("d", "a/d", Directory, Present([e]));
    assert Materialize(m, 4) == d;
    var b := FileTreeNode("b", PathAB, File, Absent);
    var c := FileTreeNode("c", PathAC, File, Absent);
    assert Materialize(m, 2) == b;
    assert Materialize(m, 3) == c;
    assert MaterializeAll(m, 1, [2, 3, 4]) == [b, c, d];
    assert Materialize(m, 1) == FileTreeNode("a", "a", Directory, Present([b, c, d]));
  }

  /** The three paths build one directory holding two files and a subdirectory, in input order. */
  lemma NestedExample()
    ensures Valid(BuildPathMap([PathAB, PathAC, PathADE]))
    ensures RootChildren(BuildPathMap([PathAB, PathAC, PathADE])) == [
        FileTreeNode("a", "a", Directory, Present([
          FileTreeNode("b", PathAB, File, Absent),
          FileTreeNode("c", PathAC, File, Absent),
          FileTreeNode("d", "a/d", Directory, Present([
            FileTreeNode("e", PathADE, File, Absent)]))]))]
  {
    ExampleBuild();
    ExampleTree();
  }

  lemma BuildOne()
    ensures BuildPathMap([PathAB]) == AfterAB()
  {
    assert [PathAB][..0] == [];
    Step1();
  }

  lemma RepeatDirectory()
    ensures BuildPathMap([PathAB, "a"]) == AfterAB()
  {
    assert [PathAB, "a"][..1] == [PathAB];
    BuildOne();
    SplitWithoutSeparator("a", '/');
    assert Visit(AfterAB(), "", "a", true) == AfterAB();
    assert Walk(AfterAB(), ["a"], 0, "") == AfterAB();
  }

  lemma ValidOne()
    ensures Valid(AfterAB())
  {
    BuildOne();
    BuildPathMapValid([PathAB]);
  }

  lemma SingleFileTree()
    ensures Valid(AfterAB())
    ensures RootChildren(AfterAB()) == [FileTreeNode("a", "a", Directory, Present([FileTreeNode("b", PathAB, File, Absent)]))]
  {
    ValidOne();
    var m := AfterAB();
    var b := FileTreeNode("b", PathAB, File, Absent);
    assert Materialize(m, 2) == b;
    assert MaterializeAll(m, 1, [2]) == [b];
  }

  /** A path that names an existing directory again leaves it a directory. */
  lemma DirectoryThenFileExample()
    ensures Valid(BuildPathMap([PathAB, "a"]))
    ensures RootChildren(BuildPathMap([PathAB, "a"])) ==
      [FileTreeNode("a", "a", Directory, Present([FileTreeNode("b", PathAB, File, Absent)]))]
  {
    RepeatDirectory();
    SingleFileTree();
  }

  /** A leading slash yields an empty first segment, which the walk absorbs into the root. */
  lemma LeadingSlashExample()
    ensures BuildPathMap(["/a"]) == BuildPathMap(["a"])
  {
    SplitWithoutSeparator("", '/');
    SplitWithoutSeparator("a", '/');
    SplitAround("", "a", '/');
    assert "" + ['/'] + "a" == "/a";
    assert ["/a"][..0] == [];
    assert ["a"][..0] == [];
    assert Visit(Seed(), "", "", false) == Seed();
  }

  /** A directory holding only a `.gitkeep` placeholder renders as a directory with no entries. */
  lemma GitkeepExample()
    ensures RenderNodes([FileTreeNode("src", "src", Directory, Present([
        FileTreeNode(".gitkeep", "src/.gitkeep", File, Absent)]))], {"src"}) ==
      [Row("src", "src", Directory)]
  {
    var g := FileTreeNode(".gitkeep", "src/.gitkeep", File, Absent);
    assert RenderNode(g, {"src"}) == [];
    assert RenderNodes([g], {"src"}) == [];
  }

  /** The lookup after the single path `a`: one file under the root. */
  function AfterFileA(): PathMap {
    PathMap(Seed().index["a" := 1], [Slot("", "", Directory, Some([1])), Slot("a", "a", File, None)])
  }

  /** The lookup after `a` and then `a/b`: the node of `a/b` is recorded, but its parent is a file. */
  function AfterFileThenAB(): PathMap {
    PathMap(AfterFileA().index[PathAB := 2],
      [Slot("", "", Directory, Some([1])), Slot("a", "a", File, None), Slot("b", PathAB, File, None)])
  }

  lemma FileFirst()
    ensures BuildPathMap(["a"]) == AfterFileA()
  {
    assert ["a"][..0] == [];
    SplitWithoutSeparator("a", '/');
    assert [] + [1] == [1];
    assert Visit(Seed(), "", "a", true) == AfterFileA();
    assert Walk(Seed(), ["a"], 0, "") == AfterFileA();
  }

  lemma OrphanStep()
    ensures InsertPath(AfterFileA(), PathAB) == AfterFileThenAB()
  {
    SplitWithoutSeparator("a", '/');
    SplitWithoutSeparator("b", '/');
    SplitAround("a", "b", '/');
    assert "a" + ['/'] + "b" == PathAB;
    assert Visit(AfterFileA(), "", "a", false) == AfterFileA();
    assert Visit(AfterFileA(), "a", "b", true) == AfterFileThenAB();
  }

  /** A path first seen as a file cannot take children: `a/b` gets a node that no children list
      holds, so the tree shows the file `a` alone. */
  lemma OrphanExample()
    ensures Valid(BuildPathMap(["a", PathAB]))
    ensures PathAB in BuildPathMap(["a", PathAB]).index
    ensures forall s :: s in BuildPathMap(["a", PathAB]).slots && s.children.Some? ==>
      BuildPathMap(["a", PathAB]).index[PathAB] !in s.children.value
    ensures RootChildren(BuildPathMap(["a", PathAB])) == [FileTreeNode("a", "a", File, Absent)]
  {
    assert ["a", PathAB][..1] == ["a"];
    FileFirst();
    OrphanStep();
    assert BuildPathMap(["a", PathAB]) == AfterFileThenAB();
    BuildPathMapValid(["a", PathAB]);
    var m := AfterFileThenAB();
    assert Materialize(m, 1) == FileTreeNode("a", "a", File, Absent);
    assert MaterializeAll(m, 0, [1]) == [FileTreeNode("a", "a", File, Absent)];
  }

  /** The general reachability theorem on the same input: `a` is in the tree, and `a/b`, whose
      parent is the file `a`, is not. */
  lemma OrphanUnreachable()
    ensures Valid(BuildPathMap(["a", PathAB]))
    ensures InTree(BuildPathMap(["a", PathAB]), "a")
    ensures !InTree(BuildPathMap(["a", PathAB]), PathAB)
  {
    var m := BuildPathMap(["a", PathAB]);
    assert m == AfterFileThenAB() by {
      assert ["a", PathAB][..1] == ["a"];
      FileFirst();
      OrphanStep();
    }
    ParentOfExtend("", "a");
    ParentOfExtend("a", "b");
    assert Extend("a", "b") == PathAB;
    BuiltTreeHoldsUnderDirectories(["a", PathAB], "a");
    BuiltTreeHoldsUnderDirectories(["a", PathAB], PathAB);
    assert ParentPath("a") == "" && ParentPath(PathAB) == "a";
    assert IsDirectoryAt(m, "") && !IsDirectoryAt(m, "a");
  }
}
