/**
 * The folder sidebar (src/components/folders/folder-sidebar.tsx): the folder
 * tree built from the flat list, what the sidebar actually draws of it, and
 * the list updates after a create, edit or delete. Loading the list and the
 * remote delete are outside the model; their results are parameters.
 */
module FolderTree {
  import opened Text
  import opened Seqs
  import opened Entities

  // ---------------------------------------------------------------------
  // Siblings in position order (`.sort((a, b) => a.position - b.position)`)

  predicate SortedByPosition(s: seq<Folder>)
  {
    forall i, j | 0 <= i < j < |s| :: s[i].position <= s[j].position
  }

  /** Puts `x` before the first entry whose position is not smaller. */
  function Insert(x: Folder, s: seq<Folder>): (r: seq<Folder>)
    ensures |r| == |s| + 1
  {
    if s == [] || x.position <= s[0].position then [x] + s
    else [s[0]] + Insert(x, s[1..])
  }

  /** A stable sort by position (insertion sort). */
  function SortByPosition(s: seq<Folder>): (r: seq<Folder>)
    ensures |r| == |s|
  {
    if s == [] then [] else Insert(s[0], SortByPosition(s[1..]))
  }

  lemma {:induction false} InsertPermutes(x: Folder, s: seq<Folder>)
    ensures multiset(Insert(x, s)) == multiset(s) + multiset{x}
  {
    if s != [] {
      assert s == [s[0]] + s[1..];
      if x.position > s[0].position {
        InsertPermutes(x, s[1..]);
      }
    }
  }

  /** The sort neither loses nor adds a folder. */
  lemma {:induction false} SortPermutes(s: seq<Folder>)
    ensures multiset(SortByPosition(s)) == multiset(s)
  {
    if s != [] {
      assert s == [s[0]] + s[1..];
      SortPermutes(s[1..]);
      InsertPermutes(s[0], SortByPosition(s[1..]));
    }
  }

  lemma ConsSorted(a: Folder, t: seq<Folder>)
    requires SortedByPosition(t) && forall y | y in t :: a.position <= y.position
    ensures SortedByPosition([a] + t)
  {
    var r := [a] + t;
    forall i, j | 0 <= i < j < |r|
      ensures r[i].position <= r[j].position
    {
      assert r[j] == t[j - 1];
      if i > 0 {
        assert r[i] == t[i - 1];
      }
    }
  }

  lemma {:induction false} InsertSorted(x: Folder, s: seq<Folder>)
    requires SortedByPosition(s)
    ensures SortedByPosition(Insert(x, s))
  {
    if s != [] && x.position > s[0].position {
      var t := Insert(x, s[1..]);
      InsertSorted(x, s[1..]);
      InsertPermutes(x, s[1..]);
      forall y | y in t
        ensures s[0].position <= y.position
      {
        assert y in multiset(t);
        if y != x {
          assert y in s[1..];
        }
      }
      ConsSorted(s[0], t);
    }
  }

  /** The siblings come out in non-decreasing position, and nothing is lost or added. */
  lemma {:induction false} SortSorted(s: seq<Folder>)
    ensures SortedByPosition(SortByPosition(s))
  {
    if s != [] {
      SortSorted(s[1..]);
      InsertSorted(s[0], SortByPosition(s[1..]));
    }
  }

  /** The entries with position `v`, in order. */
  function AtPosition(s: seq<Folder>, v: int): seq<Folder>
  {
    if s == [] then []
    else (if s[0].position == v then [s[0]] else []) + AtPosition(s[1..], v)
  }

  lemma {:induction false} InsertAtPosition(x: Folder, s: seq<Folder>, v: int)
    requires SortedByPosition(s)
    ensures AtPosition(Insert(x, s), v) == (if x.position == v then [x] else []) + AtPosition(s, v)
  {
    if s == [] || x.position <= s[0].position {
      assert Insert(x, s) == [x] + s;
      assert ([x] + s)[1..] == s;
    } else {
      var t := Insert(x, s[1..]);
      assert Insert(x, s) == [s[0]] + t;
      assert ([s[0]] + t)[1..] == t;
      InsertAtPosition(x, s[1..], v);
      var rest := AtPosition(s[1..], v);
      if s[0].position == v {
        assert AtPosition(Insert(x, s), v) == [s[0]] + rest;
      } else {
        assert AtPosition(Insert(x, s), v) == (if x.position == v then [x] else []) + rest;
      }
    }
  }

  /** The sort is stable: folders with the same position keep their order. */
  lemma {:induction false} SortStable(s: seq<Folder>, v: int)
    ensures AtPosition(SortByPosition(s), v) == AtPosition(s, v)
  {
    if s != [] {
      SortStable(s[1..], v);
      SortSorted(s[1..]);
      InsertAtPosition(s[0], SortByPosition(s[1..]), v);
    }
  }

  // ---------------------------------------------------------------------
  // buildFolderTree

  datatype TreeNode = TreeNode(folder: Folder, children: seq<TreeNode>)

  /** `folders.filter(folder => folder.parent_id === parentId)`: null matches only null. */
  function ChildrenOf(fs: seq<Folder>, parent: Option<Id>): seq<Folder>
  {
    Filter(fs, (f: Folder) => f.parentId == parent)
  }

  lemma ChildrenOfMembers(fs: seq<Folder>, parent: Option<Id>)
    ensures forall f | f in ChildrenOf(fs, parent) :: f in fs && f.parentId == parent
    ensures forall f | f in fs && f.parentId == parent :: f in ChildrenOf(fs, parent)
  {
  }

  /**
   * `buildFolderTree(folders, parent)` cut off after `fuel` levels; the
   * source recurses without a bound.
   */
  function Forest(fs: seq<Folder>, parent: Option<Id>, fuel: nat): seq<TreeNode>
    decreases fuel, 1
  {
    if fuel == 0 then [] else Nodes(fs, SortByPosition(ChildrenOf(fs, parent)), fuel)
  }

  /** `.map(folder => ({ ...folder, children: buildFolderTree(folders, folder.id) }))` */
  function Nodes(fs: seq<Folder>, level: seq<Folder>, fuel: nat): seq<TreeNode>
    requires fuel >= 1
    decreases fuel, 0, |level|
  {
    if level == [] then []
    else [TreeNode(level[0], Forest(fs, Some(level[0].id), fuel - 1))] + Nodes(fs, level[1..], fuel)
  }

  /** One node per folder of the level, in the same order, each with the level below it. */
  lemma {:induction false} NodesShape(fs: seq<Folder>, level: seq<Folder>, fuel: nat)
    requires fuel >= 1
    ensures var r := Nodes(fs, level, fuel);
      && |r| == |level|
      && forall i | 0 <= i < |level| ::
           r[i].folder == level[i] && r[i].children == Forest(fs, Some(level[i].id), fuel - 1)
  {
    if level != [] {
      NodesShape(fs, level[1..], fuel);
      var r := Nodes(fs, level, fuel);
      var rest := Nodes(fs, level[1..], fuel);
      assert r == [TreeNode(level[0], Forest(fs, Some(level[0].id), fuel - 1))] + rest;
      forall i | 1 <= i < |level|
        ensures r[i].folder == level[i] && r[i].children == Forest(fs, Some(level[i].id), fuel - 1)
      {
        assert r[i] == rest[i - 1] && level[i] == level[1..][i - 1];
      }
    }
  }

  /**
   * The tree the sidebar shows. With distinct ids the bound `|fs|` is never
   * reached (`MoreFuelSameTree`), so this is what the unbounded recursion
   * computes.
   */
  function BuildFolderTree(fs: seq<Folder>): seq<TreeNode>
  {
    Forest(fs, None, |fs|)
  }

  function FoldersOf(forest: seq<TreeNode>): (r: seq<Folder>)
    ensures |r| == |forest| && forall i | 0 <= i < |forest| :: r[i] == forest[i].folder
  {
    seq(|forest|, i requires 0 <= i < |forest| => forest[i].folder)
  }

  /**
   * One level of the tree: the folders whose parent is `parent`, in position
   * order, each with the level below it as children.
   */
  lemma ForestLevel(fs: seq<Folder>, parent: Option<Id>, fuel: nat)
    requires fuel >= 1
    ensures var forest := Forest(fs, parent, fuel);
      && FoldersOf(forest) == SortByPosition(ChildrenOf(fs, parent))
      && SortedByPosition(FoldersOf(forest))
      && (forall i | 0 <= i < |forest| ::
            forest[i].folder in fs && forest[i].folder.parentId == parent
            && forest[i].children == Forest(fs, Some(forest[i].folder.id), fuel - 1))
      && (forall f | f in fs && f.parentId == parent :: f in FoldersOf(forest))
  {
    var children := ChildrenOf(fs, parent);
    var sorted := SortByPosition(children);
    var forest := Forest(fs, parent, fuel);
    assert forest == Nodes(fs, sorted, fuel);
    NodesShape(fs, sorted, fuel);
    SortSorted(children);
    SortSameMembers(children);
    assert FoldersOf(forest) == sorted;
    forall i | 0 <= i < |forest|
      ensures forest[i].folder in fs && forest[i].folder.parentId == parent
    {
      assert forest[i].folder == sorted[i];
      assert sorted[i] in children;
    }
  }

  lemma SortSameMembers(s: seq<Folder>)
    ensures forall f :: f in SortByPosition(s) <==> f in s
  {
    var r := SortByPosition(s);
    SortPermutes(s);
    assert forall f :: f in r <==> f in multiset(r);
    assert forall f :: f in s <==> f in multiset(s);
  }

  /** The top level of the tree is exactly the folders with no parent, in position order. */
  lemma TopLevelIsRoots(fs: seq<Folder>)
    ensures FoldersOf(BuildFolderTree(fs)) == SortByPosition(ChildrenOf(fs, None))
  {
    if fs != [] {
      ForestLevel(fs, None, |fs|);
    }
  }

  /** A folder of the list under `parent`, followed by a chain below it, is a chain under `parent`. */
  lemma ChainCons(fs: seq<Folder>, parent: Option<Id>, c: Folder, rest: seq<Folder>)
    requires c in fs && c.parentId == parent && IsChain(fs, Some(c.id), rest)
    ensures IsChain(fs, parent, [c] + rest)
  {
    var path := [c] + rest;
    forall i | 1 <= i < |path|
      ensures path[i] in fs && path[i].parentId == Some(path[i - 1].id)
    {
      assert path[i] == rest[i - 1];
      if i > 1 {
        assert path[i - 1] == rest[i - 2];
      }
    }
  }

  lemma LongerChain(fs: seq<Folder>, parent: Option<Id>, c: Folder, rest: seq<Folder>, n: nat)
    requires c in fs && c.parentId == parent && IsChain(fs, Some(c.id), rest) && n == |rest| + 1
    ensures ChainOfLength(fs, parent, n)
  {
    ChainCons(fs, parent, c, rest);
    assert |[c] + rest| == |rest| + 1;
  }

  /** Every entry of a sorted level is a folder of the list under `parent`. */
  lemma SortedChild(fs: seq<Folder>, parent: Option<Id>, i: nat)
    requires i < |SortByPosition(ChildrenOf(fs, parent))|
    ensures var c := SortByPosition(ChildrenOf(fs, parent))[i]; c in fs && c.parentId == parent
  {
    SortSameMembers(ChildrenOf(fs, parent));
  }

  /** A level with fuel left is the sorted children of `parent`, each as a node. */
  lemma ForestUnfold(fs: seq<Folder>, parent: Option<Id>, fuel: nat)
    requires fuel >= 1
    ensures Forest(fs, parent, fuel) == Nodes(fs, SortByPosition(ChildrenOf(fs, parent)), fuel)
  {
  }

  /** Some chain of `n` folders hangs below `parent`. */
  ghost predicate ChainOfLength(fs: seq<Folder>, parent: Option<Id>, n: nat)
  {
    exists path: seq<Folder> :: IsChain(fs, parent, path) && |path| == n
  }

  /** A level whose subtrees do not change with one more unit of fuel does not change either. */
  lemma {:induction false} NodesSame(fs: seq<Folder>, level: seq<Folder>, fuel: nat, more: nat)
    requires fuel >= 1 && more == fuel + 1
    requires forall i | 0 <= i < |level| :: Forest(fs, Some(level[i].id), fuel - 1) == Forest(fs, Some(level[i].id), fuel)
    ensures Nodes(fs, level, fuel) == Nodes(fs, level, more)
    decreases |level|
  {
    if level != [] {
      assert forall i | 0 <= i < |level| - 1 :: level[1..][i] == level[i + 1];
      NodesSame(fs, level[1..], fuel, more);
    }
  }

  /**
   * Without a chain of `more` folders below `parent`, going from `fuel` to
   * `more == fuel + 1` changes nothing.
   */
  lemma {:induction false} FuelEnough(fs: seq<Folder>, parent: Option<Id>, fuel: nat, more: nat)
    requires more == fuel + 1 && !ChainOfLength(fs, parent, more)
    ensures Forest(fs, parent, fuel) == Forest(fs, parent, more)
    decreases fuel, 1
  {
    var sorted := SortByPosition(ChildrenOf(fs, parent));
    ForestUnfold(fs, parent, more);
    if fuel == 0 {
      if sorted != [] {
        SortedChild(fs, parent, 0);
        assert IsChain(fs, parent, [sorted[0]]);
      }
    } else {
      ForestUnfold(fs, parent, fuel);
      forall i | 0 <= i < |sorted|
        ensures Forest(fs, Some(sorted[i].id), fuel - 1) == Forest(fs, Some(sorted[i].id), fuel)
      {
        SortedChild(fs, parent, i);
        ChildFuelEnough(fs, parent, fuel, more, sorted[i]);
      }
      NodesSame(fs, sorted, fuel, more);
    }
  }

  /** The step of `FuelEnough` for one child: a long chain below it would be a longer one below `parent`. */
  lemma {:induction false} ChildFuelEnough(fs: seq<Folder>, parent: Option<Id>, fuel: nat, more: nat, c: Folder)
    requires fuel >= 1 && more == fuel + 1 && !ChainOfLength(fs, parent, more)
    requires c in fs && c.parentId == parent
    ensures Forest(fs, Some(c.id), fuel - 1) == Forest(fs, Some(c.id), fuel)
    decreases fuel, 0
  {
    if ChainOfLength(fs, Some(c.id), fuel) {
      var rest: seq<Folder> :| IsChain(fs, Some(c.id), rest) && |rest| == fuel;
      LongerChain(fs, parent, c, rest, more);
    }
    FuelEnough(fs, Some(c.id), fuel - 1, fuel);
  }

  /** Two folders of a list with distinct ids that share an id are the same folder. */
  lemma SameIdSameFolder(fs: seq<Folder>, x: Folder, y: Folder)
    requires DistinctIds(fs) && x in fs && y in fs && x.id == y.id
    ensures x == y
  {
    var a :| 0 <= a < |fs| && fs[a] == x;
    var b :| 0 <= b < |fs| && fs[b] == y;
  }

  lemma {:induction false} ChainEntriesDiffer(fs: seq<Folder>, path: seq<Folder>, i: nat, j: nat)
    requires DistinctIds(fs) && IsChain(fs, None, path)
    requires i < j < |path|
    ensures path[i] != path[j]
    decreases i
  {
    if i > 0 {
      ChainEntriesDiffer(fs, path, i - 1, j - 1);
      if path[i].id == path[j].id {
        SameIdSameFolder(fs, path[i], path[j]);
        assert Some(path[i - 1].id) == Some(path[j - 1].id);
        SameIdSameFolder(fs, path[i - 1], path[j - 1]);
      }
    } else {
      assert path[j].parentId == Some(path[j - 1].id);
    }
  }

  /** With distinct ids a chain hanging below the top never visits a folder twice, so it is no longer than the list. */
  lemma RootChainBounded(fs: seq<Folder>, path: seq<Folder>)
    requires DistinctIds(fs) && IsChain(fs, None, path)
    ensures forall i, j | 0 <= i < j < |path| :: path[i] != path[j]
    ensures |path| <= |fs|
  {
    forall i, j | 0 <= i < j < |path|
      ensures path[i] != path[j]
    {
      ChainEntriesDiffer(fs, path, i, j);
    }
    DistinctWithin(path, fs);
  }

  /** With distinct ids, fuel beyond the list length changes nothing: the bound never cuts the tree. */
  lemma {:induction false} MoreFuelSameTree(fs: seq<Folder>, fuel: nat)
    requires DistinctIds(fs) && fuel >= |fs|
    ensures Forest(fs, None, fuel) == BuildFolderTree(fs)
    decreases fuel
  {
    if fuel != |fs| {
      MoreFuelSameTree(fs, fuel - 1);
      NoLongRootChain(fs, fuel);
      OneMoreFuel(fs, fuel);
    }
  }

  /** One step of `MoreFuelSameTree`. */
  lemma OneMoreFuel(fs: seq<Folder>, fuel: nat)
    requires fuel >= 1 && !ChainOfLength(fs, None, fuel)
    requires Forest(fs, None, fuel - 1) == BuildFolderTree(fs)
    ensures Forest(fs, None, fuel) == BuildFolderTree(fs)
  {
    FuelEnough(fs, None, fuel - 1, fuel);
  }

  /** With distinct ids no chain below the top is longer than the list. */
  lemma NoLongRootChain(fs: seq<Folder>, n: nat)
    requires DistinctIds(fs) && n > |fs|
    ensures !ChainOfLength(fs, None, n)
  {
    if ChainOfLength(fs, None, n) {
      var path: seq<Folder> :| IsChain(fs, None, path) && |path| == n;
      RootChainBounded(fs, path);
    }
  }

  // ---------------------------------------------------------------------
  // What can appear in the tree

  /** Every folder of a forest, parents before their children. */
  function Flatten(forest: seq<TreeNode>): seq<Folder>
    decreases forest
  {
    if forest == [] then []
    else [forest[0].folder] + Flatten(forest[0].children) + Flatten(forest[1..])
  }

  lemma NodesCons(fs: seq<Folder>, level: seq<Folder>, fuel: nat)
    requires fuel >= 1 && level != []
    ensures Nodes(fs, level, fuel) == [TreeNode(level[0], Forest(fs, Some(level[0].id), fuel - 1))] + Nodes(fs, level[1..], fuel)
  {
  }

  lemma FlattenCons(n: TreeNode, rest: seq<TreeNode>)
    ensures Flatten([n] + rest) == [n.folder] + Flatten(n.children) + Flatten(rest)
  {
    assert ([n] + rest)[1..] == rest;
  }

  /** Every folder in the tree below `parent` is reached from it by a chain. */
  lemma {:induction false} ChainTo(fs: seq<Folder>, parent: Option<Id>, fuel: nat, g: Folder) returns (path: seq<Folder>)
    requires g in Flatten(Forest(fs, parent, fuel))
    ensures IsChain(fs, parent, path) && path != [] && path[|path| - 1] == g
    decreases fuel, 1
  {
    assert fuel >= 1;
    ForestUnfold(fs, parent, fuel);
    SortSameMembers(ChildrenOf(fs, parent));
    path := ChainToIn(fs, parent, fuel, SortByPosition(ChildrenOf(fs, parent)), g);
  }

  lemma {:induction false} ChainToIn(fs: seq<Folder>, parent: Option<Id>, fuel: nat, level: seq<Folder>, g: Folder)
      returns (path: seq<Folder>)
    requires fuel >= 1
    requires forall f | f in level :: f in fs && f.parentId == parent
    requires g in Flatten(Nodes(fs, level, fuel))
    ensures IsChain(fs, parent, path) && path != [] && path[|path| - 1] == g
    decreases fuel, 0, |level|
  {
    assert level != [];
    var top := level[0];
    var below := Forest(fs, Some(top.id), fuel - 1);
    var others := Nodes(fs, level[1..], fuel);
    NodesCons(fs, level, fuel);
    FlattenCons(TreeNode(top, below), others);
    if g == top {
      path := [g];
    } else if g in Flatten(below) {
      path := ChainThroughChild(fs, parent, fuel, top, g);
    } else {
      path := ChainToIn(fs, parent, fuel, level[1..], g);
    }
  }

  lemma {:induction false} ChainThroughChild(fs: seq<Folder>, parent: Option<Id>, fuel: nat, top: Folder, g: Folder)
      returns (path: seq<Folder>)
    requires fuel >= 1 && top in fs && top.parentId == parent
    requires g in Flatten(Forest(fs, Some(top.id), fuel - 1))
    ensures IsChain(fs, parent, path) && path != [] && path[|path| - 1] == g
    decreases fuel, 0, 0
  {
    var rest := ChainTo(fs, Some(top.id), fuel - 1, g);
    ChainCons(fs, parent, top, rest);
    path := [top] + rest;
  }

  /** The last folder of a chain from the top is a root or has its parent in the list. */
  lemma ChainParentListed(fs: seq<Folder>, path: seq<Folder>)
    requires IsChain(fs, None, path) && path != []
    ensures path[|path| - 1].parentId.None? || exists f :: f in fs && Some(f.id) == path[|path| - 1].parentId
  {
    if |path| > 1 {
      assert path[|path| - 2] in fs;
    }
  }

  /** A folder whose parent id names no folder of the list never appears in the tree. */
  lemma DanglingNeverShown(fs: seq<Folder>, g: Folder)
    requires g.parentId.Some? && forall f | f in fs :: f.id != g.parentId.value
    ensures g !in Flatten(BuildFolderTree(fs))
  {
    if g in Flatten(BuildFolderTree(fs)) {
      var path := ChainTo(fs, None, |fs|, g);
      ChainParentListed(fs, path);
    }
  }

  /** A chain followed by a chain below its last folder is one chain. */
  lemma ChainAppend(fs: seq<Folder>, parent: Option<Id>, a: seq<Folder>, b: seq<Folder>)
    requires IsChain(fs, parent, a) && a != [] && IsChain(fs, Some(a[|a| - 1].id), b)
    ensures IsChain(fs, parent, a + b)
  {
    var whole := a + b;
    forall i | 1 <= i < |whole|
      ensures whole[i] in fs && whole[i].parentId == Some(whole[i - 1].id)
    {
      if i == |a| {
        assert whole[i] == b[0] && whole[i - 1] == a[|a| - 1];
      } else if i > |a| {
        assert whole[i] == b[i - |a|] && whole[i - 1] == b[i - 1 - |a|];
      }
    }
  }

  /** With distinct ids, a folder that lies below itself (a parent cycle) never appears in the tree. */
  lemma CycleNeverShown(fs: seq<Folder>, g: Folder, cycle: seq<Folder>)
    requires DistinctIds(fs)
    requires IsChain(fs, Some(g.id), cycle) && cycle != [] && cycle[|cycle| - 1] == g
    ensures g !in Flatten(BuildFolderTree(fs))
  {
    if g in Flatten(BuildFolderTree(fs)) {
      var path := ChainTo(fs, None, |fs|, g);
      ChainAppend(fs, None, path, cycle);
      ChainEntriesDiffer(fs, path + cycle, |path| - 1, |path| + |cycle| - 1);
    }
  }

  // ---------------------------------------------------------------------
  // renderFolderTree

  /**
   * `renderFolderTree(folderTree)`: each top-level node is drawn with, as
   * its children, the top-level folders whose parent id is its own id.
   */
  function DrawnChildren(tree: seq<TreeNode>): (r: seq<seq<Folder>>)
    ensures |r| == |tree|
    ensures forall i | 0 <= i < |tree| :: r[i] == Filter(FoldersOf(tree), (f: Folder) => f.parentId == Some(tree[i].folder.id))
  {
    seq(|tree|, i requires 0 <= i < |tree| =>
      Filter(FoldersOf(tree), (f: Folder) => f.parentId == Some(tree[i].folder.id)))
  }

  /** The folders drawn: each top-level node, then its drawn children, each of which is drawn with no children. */
  function Drawn(tree: seq<TreeNode>, children: seq<seq<Folder>>): seq<Folder>
    requires |children| == |tree|
  {
    if tree == [] then [] else [tree[0].folder] + children[0] + Drawn(tree[1..], children[1..])
  }

  lemma {:induction false} DrawnWithoutChildren(tree: seq<TreeNode>, children: seq<seq<Folder>>)
    requires |children| == |tree| && forall i | 0 <= i < |children| :: children[i] == []
    ensures Drawn(tree, children) == FoldersOf(tree)
  {
    if tree != [] {
      DrawnWithoutChildren(tree[1..], children[1..]);
      assert FoldersOf(tree) == [tree[0].folder] + FoldersOf(tree[1..]);
    }
  }

  /**
   * Only top-level folders are ever drawn: every top-level folder has no
   * parent, so no node gets children, whatever the tree holds below.
   */
  lemma OnlyRootsDrawn(fs: seq<Folder>)
    ensures var tree := BuildFolderTree(fs);
      && (forall i | 0 <= i < |tree| :: DrawnChildren(tree)[i] == [])
      && Drawn(tree, DrawnChildren(tree)) == SortByPosition(ChildrenOf(fs, None))
  {
    var tree := BuildFolderTree(fs);
    TopLevelIsRoots(fs);
    var roots := FoldersOf(tree);
    assert forall f | f in roots :: f.parentId == None by {
      if fs != [] {
        ForestLevel(fs, None, |fs|);
      }
    }
    forall i | 0 <= i < |tree|
      ensures DrawnChildren(tree)[i] == []
    {
      FilterDropsAll(roots, (f: Folder) => f.parentId == Some(tree[i].folder.id));
    }
    DrawnWithoutChildren(tree, DrawnChildren(tree));
  }

  /** A folder that has a parent is never drawn. */
  lemma NestedNeverDrawn(fs: seq<Folder>, g: Folder)
    requires g.parentId.Some?
    ensures g !in Drawn(BuildFolderTree(fs), DrawnChildren(BuildFolderTree(fs)))
  {
    OnlyRootsDrawn(fs);
    SortSameMembers(ChildrenOf(fs, None));
    ChildrenOfMembers(fs, None);
  }

  // ---------------------------------------------------------------------
  // The sidebar's list

  /** `prev.filter(f => f.id !== id)` */
  function WithoutFolder(fs: seq<Folder>, id: Id): (r: seq<Folder>)
    ensures forall f | f in r :: f in fs && f.id != id
    ensures forall f | f in fs && f.id != id :: f in r
    ensures forall f | f in fs :: Count(r, f) == if f.id != id then Count(fs, f) else 0
    ensures IsSubsequence(r, fs)
  {
    var keep := (f: Folder) => f.id != id;
    FilterIsSubsequence(fs, keep);
    FilterCounts(fs, keep);
    Filter(fs, keep)
  }

  /** Appending a folder whose id is already listed leaves that id listed twice. */
  lemma AppendDuplicates(fs: seq<Folder>, f: Folder)
    requires exists g | g in fs :: g.id == f.id
    ensures Count(IdsOf(fs + [f]), f.id) >= 2
    ensures !DistinctIds(fs + [f])
  {
    assert IdsOf(fs + [f]) == IdsOf(fs) + [f.id];
    CountAppend(IdsOf(fs), f.id, f.id);
    var g :| g in fs && g.id == f.id;
    var k :| 0 <= k < |fs| && fs[k] == g;
    assert f.id in IdsOf(fs) by {
      assert IdsOf(fs)[k] == f.id;
    }
    assert (fs + [f])[k].id == (fs + [f])[|fs|].id;
  }

  const CreatedMessage := "Folder created successfully!"
  const UpdatedMessage := "Folder updated successfully!"
  const DeletedMessage := "Folder deleted successfully"
  const DeleteFailedMessage := "Failed to delete folder"

  class FolderSidebar {
    var folders: seq<Folder>
    var editing: Option<Folder>
    var showModal: bool

    /** The state once the list has been loaded. */
    constructor(loaded: seq<Folder>)
      ensures folders == loaded && editing.None? && !showModal
    {
      folders := loaded;
      editing := None;
      showModal := false;
    }

    /**
     * `handleFolderCreated`: the folder the dialog returns is appended, also
     * after an edit, where the list then holds the old and the new version.
     */
    method FolderCreated(f: Folder) returns (message: string)
      modifies this
      ensures folders == old(folders) + [f]
      ensures Count(IdsOf(folders), f.id) == Count(IdsOf(old(folders)), f.id) + 1
      ensures !showModal && editing.None?
      ensures message == (if old(editing).Some? then UpdatedMessage else CreatedMessage)
    {
      message := if editing.Some? then UpdatedMessage else CreatedMessage;
      assert IdsOf(folders + [f]) == IdsOf(folders) + [f.id];
      CountAppend(IdsOf(folders), f.id, f.id);
      folders := folders + [f];
      showModal := false;
      editing := None;
    }

    method FolderEdit(f: Folder)
      modifies this
      ensures editing == Some(f) && showModal && folders == old(folders)
    {
      editing := Some(f);
      showModal := true;
    }

    /** The dialog's close button. */
    method CloseModal()
      modifies this
      ensures editing.None? && !showModal && folders == old(folders)
    {
      showModal := false;
      editing := None;
    }

    /**
     * `handleFolderDelete`; `confirmed` is the user's answer, `deleted` the
     * outcome of the remote delete. Returns whether the selection must be
     * cleared and the toast shown.
     */
    method FolderDelete(f: Folder, confirmed: bool, deleted: bool, selected: Option<Id>)
        returns (clearSelection: bool, message: Option<string>)
      modifies this
      ensures !confirmed ==> folders == old(folders) && !clearSelection && message.None?
      ensures confirmed && deleted ==>
        folders == WithoutFolder(old(folders), f.id)
        && (clearSelection <==> selected == Some(f.id))
        && message == Some(DeletedMessage)
      ensures confirmed && !deleted ==>
        folders == old(folders) && !clearSelection && message == Some(DeleteFailedMessage)
      ensures editing == old(editing) && showModal == old(showModal)
    {
      if !confirmed {
        return false, None;
      }
      if !deleted {
        return false, Some(DeleteFailedMessage);
      }
      folders := WithoutFolder(folders, f.id);
      clearSelection := selected == Some(f.id);
      message := Some(DeletedMessage);
    }

    /** `folders.filter(f => f.id !== editingFolder?.id)`, the list handed to the dialog. */
    function DialogParents(): (r: seq<Folder>)
      reads this
      ensures editing.Some? ==>
        && (forall f | f in r :: f in folders && f.id != editing.value.id)
        && (forall f | f in folders && f.id != editing.value.id :: f in r)
        && (forall f | f in folders :: Count(r, f) == if f.id != editing.value.id then Count(folders, f) else 0)
        && IsSubsequence(r, folders)
      ensures editing.None? ==> r == folders
    {
      if editing.Some? then WithoutFolder(folders, editing.value.id) else folders
    }
  }

  /** Deleting a folder removes it from the tree. */
  lemma DeletedFolderGone(fs: seq<Folder>, f: Folder)
    ensures f !in Flatten(BuildFolderTree(WithoutFolder(fs, f.id)))
  {
    var rest := WithoutFolder(fs, f.id);
    if f in Flatten(BuildFolderTree(rest)) {
      var path := ChainTo(rest, None, |rest|, f);
    }
  }
}
