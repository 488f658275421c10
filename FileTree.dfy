/**
 * The file explorer: building a nested tree from slash-delimited paths through a
 * lookup from cumulative path to node, and the small explorer operations around
 * it (the expanded-directory set, the rename rewrite, the submit guards and the
 * rows a tree renders).
 *
 * The lookup of `buildFileTree` holds node objects that are shared with their
 * parents' `children` arrays, so pushing into a parent's array changes the tree
 * reachable from the root. The model keeps the nodes in an arena instead: a
 * `PathMap` maps each cumulative path to a slot, and a slot names its children
 * by their slot numbers. The nested tree is read off the arena at the end.
 */
module FileTree {
  import opened Wrappers
  import opened Strings

  datatype NodeType = File | Directory

  /** A node of the rendered hierarchy: files have no children list, directories have one. */
  datatype FileTreeNode = FileTreeNode(name: string, path: string, kind: NodeType, children: ChildList)

  /** The optional `children` array of a node. */
  datatype ChildList = Absent | Present(nodes: seq<FileTreeNode>)

  /** A node held by the lookup; its children are slot numbers. */
  datatype Slot = Slot(name: string, path: string, kind: NodeType, children: Option<seq<nat>>)

  /** The `pathMap` of `buildFileTree`: `index` maps a cumulative path to the slot of its node. */
  datatype PathMap = PathMap(index: map<string, nat>, slots: seq<Slot>)

  /** The lookup before any path is read: only the root directory at the empty path. */
  function Seed(): PathMap {
    PathMap(map["" := 0], [Slot("", "", Directory, Some([]))])
  }

  /** `currentPath ? `${currentPath}/${part}` : part`. */
  function Extend(current: string, part: string): string {
    if current == "" then part else current + "/" + part
  }

  /** The node created for segment `part` under `parentPath`. */
  function NewSlot(parentPath: string, part: string, isFile: bool): Slot {
    Slot(part, Extend(parentPath, part), if isFile then File else Directory, if isFile then None else Some([]))
  }

  /** One step of the segment walk: unless the cumulative path already has a node, create one,
      record it, and push it onto the parent's children when the parent is found and has a list. */
  function Visit(m: PathMap, parentPath: string, part: string, isFile: bool): (r: PathMap)
    ensures Extend(parentPath, part) in r.index
  {
    var current := Extend(parentPath, part);
    if current in m.index then m
    else
      var id := |m.slots|;
      var created := PathMap(m.index[current := id], m.slots + [NewSlot(parentPath, part, isFile)]);
      if parentPath in created.index && created.index[parentPath] < |created.slots|
        && created.slots[created.index[parentPath]].children.Some?
      then
        var p := created.index[parentPath];
        var parent := created.slots[p];
        PathMap(created.index, created.slots[p := parent.(children := Some(parent.children.value + [id]))])
      else
        created
  }

  /** The walk over `parts[k..]`, `currentPath` being the cumulative path of `parts[..k]`. */
  function Walk(m: PathMap, parts: seq<string>, k: nat, currentPath: string): PathMap
    requires k <= |parts|
    decreases |parts| - k
  {
    if k == |parts| then m
    else Walk(Visit(m, currentPath, parts[k], k == |parts| - 1), parts, k + 1, Extend(currentPath, parts[k]))
  }

  /** One input path: split on `/` and walk its segments from the root. */
  function InsertPath(m: PathMap, filePath: string): PathMap {
    Walk(m, Split(filePath, '/'), 0, "")
  }

  /** The lookup after reading `filePaths` in order. */
  function BuildPathMap(filePaths: seq<string>): PathMap
    decreases |filePaths|
  {
    if filePaths == [] then Seed()
    else InsertPath(BuildPathMap(filePaths[..|filePaths| - 1]), filePaths[|filePaths| - 1])
  }

  /** The cumulative path after the first `n` segments, as the walk computes it. */
  function Prefix(parts: seq<string>, n: nat): string
    requires n <= |parts|
  {
    if n == 0 then "" else Extend(Prefix(parts, n - 1), parts[n - 1])
  }

  /** Slot `i` lists children by increasing slot number, each created after `i`, each with the
      path formed from `i`'s path and the child's name. */
  predicate ChildrenOrdered(m: PathMap, i: nat)
    requires i < |m.slots|
  {
    m.slots[i].children.Some? ==>
      var cs := m.slots[i].children.value;
      && (forall a :: 0 <= a < |cs| ==>
            i < cs[a] < |m.slots| && m.slots[cs[a]].path == Extend(m.slots[i].path, m.slots[cs[a]].name))
      && (forall a, b :: 0 <= a < b < |cs| ==> cs[a] < cs[b])
  }

  /** The invariant of the lookup: the root sits in slot 0, the index and the slots are in
      one-to-one correspondence (so no two nodes share a path), directories and only directories
      carry a children list, and children lists are ordered and well formed. */
  predicate Valid(m: PathMap) {
    && |m.slots| >= 1
    && m.slots[0].name == "" && m.slots[0].path == "" && m.slots[0].kind == Directory
    && m.slots[0].children.Some?
    && (forall i :: 0 <= i < |m.slots| ==> m.slots[i].path in m.index && m.index[m.slots[i].path] == i)
    && (forall p :: p in m.index ==> m.index[p] < |m.slots| && m.slots[m.index[p]].path == p)
    && (forall i :: 0 <= i < |m.slots| ==> (m.slots[i].children.Some? <==> m.slots[i].kind == Directory))
    && (forall i :: 0 <= i < |m.slots| ==> ChildrenOrdered(m, i))
  }

  /** A slot keeps its name, path and type, and its children list only grows at the end. */
  predicate SlotGrows(s: Slot, s': Slot) {
    && s'.name == s.name && s'.path == s.path && s'.kind == s.kind
    && s'.children.Some? == s.children.Some?
    && (s.children.Some? ==> s.children.value <= s'.children.value)
  }

  /** `m'` is `m` with nodes added: every recorded path keeps its slot and every slot only grows. */
  predicate Extends(m: PathMap, m': PathMap) {
    && |m.slots| <= |m'.slots|
    && (forall p :: p in m.index ==> p in m'.index && m'.index[p] == m.index[p])
    && (forall i :: 0 <= i < |m.slots| ==> SlotGrows(m.slots[i], m'.slots[i]))
  }

  /** Growth composes: a lookup that extends an extension of `m` extends `m`. */
  lemma ExtendsTransitive(m: PathMap, m': PathMap, m'': PathMap)
    requires Extends(m, m') && Extends(m', m'')
    ensures Extends(m, m'')
  {
  }

  /** One step of the walk keeps the lookup valid. A path seen before changes nothing; a new path
      gets the next slot, a node of the type its position asks for, and is appended to its
      parent's children exactly when the parent is a directory (under a file it is recorded but
      unreachable). No other slot changes. */
  lemma VisitStep(m: PathMap, parentPath: string, part: string, isFile: bool)
    requires Valid(m) && parentPath in m.index
    ensures var r := Visit(m, parentPath, part, isFile);
      var current := Extend(parentPath, part);
      var p := m.index[parentPath];
      && Valid(r) && Extends(m, r)
      && (current in m.index ==> r == m)
      && (current !in m.index ==>
        && |r.slots| == |m.slots| + 1
        && r.index.Keys == m.index.Keys + {current}
        && r.index[current] == |m.slots|
        && r.slots[|m.slots|] == NewSlot(parentPath, part, isFile)
        && (m.slots[p].kind == Directory ==> r.slots[p].children == Some(m.slots[p].children.value + [|m.slots|]))
        && (m.slots[p].kind == File ==> r.slots[p] == m.slots[p])
        && forall i :: 0 <= i < |m.slots| && i != p ==> r.slots[i] == m.slots[i])
  {
    if Extend(parentPath, part) !in m.index {
      VisitNew(m, parentPath, part, isFile);
    }
  }

  /** `VisitStep` for a path not seen before. */
  lemma VisitNew(m: PathMap, parentPath: string, part: string, isFile: bool)
    requires Valid(m) && parentPath in m.index && Extend(parentPath, part) !in m.index
    ensures var r := Visit(m, parentPath, part, isFile);
      var current := Extend(parentPath, part);
      var p := m.index[parentPath];
      && Valid(r) && Extends(m, r)
      && |r.slots| == |m.slots| + 1
      && r.index.Keys == m.index.Keys + {current}
      && r.index[current] == |m.slots|
      && r.slots[|m.slots|] == NewSlot(parentPath, part, isFile)
      && (m.slots[p].kind == Directory ==> r.slots[p].children == Some(m.slots[p].children.value + [|m.slots|]))
      && (m.slots[p].kind == File ==> r.slots[p] == m.slots[p])
      && forall i :: 0 <= i < |m.slots| && i != p ==> r.slots[i] == m.slots[i]
  {
    var current := Extend(parentPath, part);
    var n := |m.slots|;
    var p := m.index[parentPath];
    assert current != parentPath by {
      if parentPath == "" { assert m.slots[0].path in m.index; }
    }
    var r := Visit(m, parentPath, part, isFile);
    assert r.index == m.index[current := n];
    AddSlotValid(m, r, p, NewSlot(parentPath, part, isFile));
  }

  /** `r` is `m` with `node` recorded in the next slot and, when slot `p` is a directory,
      appended to its children; `p` is the slot of the node's parent. */
  predicate AddsSlot(m: PathMap, r: PathMap, p: nat, node: Slot) {
    && p < |m.slots|
    && node.path !in m.index && node.path == Extend(m.slots[p].path, node.name)
    && (node.children.Some? <==> node.kind == Directory)
    && (node.children.Some? ==> node.children.value == [])
    && r.index == m.index[node.path := |m.slots|]
    && |r.slots| == |m.slots| + 1 && r.slots[|m.slots|] == node
    && (forall i :: 0 <= i < |m.slots| && i != p ==> r.slots[i] == m.slots[i])
    && (m.slots[p].kind == Directory ==>
          m.slots[p].children.Some?
          && r.slots[p] == m.slots[p].(children := Some(m.slots[p].children.value + [|m.slots|])))
    && (m.slots[p].kind == File ==> r.slots[p] == m.slots[p])
  }

  /** Adding a slot keeps the index and the slots in one-to-one correspondence. */
  lemma AddSlotIndex(m: PathMap, r: PathMap, p: nat, node: Slot)
    requires Valid(m) && AddsSlot(m, r, p, node)
    ensures forall i :: 0 <= i < |r.slots| ==> r.slots[i].path in r.index && r.index[r.slots[i].path] == i
    ensures forall q :: q in r.index ==> r.index[q] < |r.slots| && r.slots[r.index[q]].path == q
  {
    var n := |m.slots|;
    forall i | 0 <= i <= n ensures r.slots[i].path in r.index && r.index[r.slots[i].path] == i {
      if i < n { assert r.slots[i].path == m.slots[i].path; }
    }
    forall q | q in r.index ensures r.index[q] <= n && r.slots[r.index[q]].path == q {
      if q != node.path { assert r.slots[r.index[q]].path == m.slots[m.index[q]].path; }
    }
  }

  /** Adding a slot keeps every children list ordered and well formed. */
  lemma AddSlotChildren(m: PathMap, r: PathMap, p: nat, node: Slot)
    requires Valid(m) && AddsSlot(m, r, p, node)
    ensures forall i :: 0 <= i < |r.slots| ==> ChildrenOrdered(r, i)
  {
    var n := |m.slots|;
    forall i | 0 <= i <= n ensures ChildrenOrdered(r, i) {
      if i < n {
        assert ChildrenOrdered(m, i);
      }
    }
  }

  /** Recording a new node in slot `|m.slots|`, possibly appended to the children of its parent
      slot `p`, keeps the lookup valid and extends it. */
  lemma AddSlotValid(m: PathMap, r: PathMap, p: nat, node: Slot)
    requires Valid(m) && AddsSlot(m, r, p, node)
    ensures Valid(r) && Extends(m, r)
  {
    AddSlotIndex(m, r, p, node);
    AddSlotChildren(m, r, p, node);
    assert forall i :: 0 <= i < |r.slots| ==> (r.slots[i].children.Some? <==> r.slots[i].kind == Directory);
    assert Extends(m, r) by {
      forall i | 0 <= i < |m.slots| ensures SlotGrows(m.slots[i], r.slots[i]) { }
    }
  }

  /** Walking `parts[k..]` keeps the lookup valid, only extends it, and records every later
      cumulative path. */
  lemma {:induction false} WalkStep(m: PathMap, parts: seq<string>, k: nat)
    requires Valid(m) && k <= |parts| && Prefix(parts, k) in m.index
    ensures var r := Walk(m, parts, k, Prefix(parts, k));
      && Valid(r) && Extends(m, r)
      && forall n :: k <= n <= |parts| ==> Prefix(parts, n) in r.index
    decreases |parts| - k
  {
    if k < |parts| {
      var v := Visit(m, Prefix(parts, k), parts[k], k == |parts| - 1);
      VisitStep(m, Prefix(parts, k), parts[k], k == |parts| - 1);
      WalkStep(v, parts, k + 1);
      ExtendsTransitive(m, v, Walk(v, parts, k + 1, Prefix(parts, k + 1)));
    }
  }

  /** Reading one more path keeps the lookup valid, only extends it, and records every cumulative
      path of the new path. */
  lemma InsertPathStep(m: PathMap, filePath: string)
    requires Valid(m)
    ensures var r := InsertPath(m, filePath);
      && Valid(r) && Extends(m, r)
      && forall n :: 0 <= n <= |Split(filePath, '/')| ==> Prefix(Split(filePath, '/'), n) in r.index
  {
    assert m.slots[0].path in m.index;
    WalkStep(m, Split(filePath, '/'), 0);
  }

  /** The lookup built from any path list is valid, and every cumulative path of every input path
      has a node in it (reachable from the root or not). */
  lemma {:induction false} BuildPathMapValid(filePaths: seq<string>)
    ensures Valid(BuildPathMap(filePaths))
    ensures forall j, n :: 0 <= j < |filePaths| && 0 <= n <= |Split(filePaths[j], '/')| ==>
      Prefix(Split(filePaths[j], '/'), n) in BuildPathMap(filePaths).index
    decreases |filePaths|
  {
    if filePaths != [] {
      var init := filePaths[..|filePaths| - 1];
      BuildPathMapValid(init);
      InsertPathStep(BuildPathMap(init), filePaths[|filePaths| - 1]);
      forall j, n | 0 <= j < |filePaths| && 0 <= n <= |Split(filePaths[j], '/')|
        ensures Prefix(Split(filePaths[j], '/'), n) in BuildPathMap(filePaths).index
      {
        if j < |init| { assert init[j] == filePaths[j]; }
      }
    }
  }

  /** Reading more paths never changes a node already created: the first sighting of a path
      fixes its node's name, path and type, and later paths only append to its children. */
  lemma {:induction false} BuildPathMapExtends(filePaths: seq<string>, more: seq<string>)
    ensures Extends(BuildPathMap(filePaths), BuildPathMap(filePaths + more))
    decreases |more|
  {
    if more == [] {
      assert filePaths + more == filePaths;
    } else {
      var all := filePaths + more;
      var init := more[..|more| - 1];
      assert all[..|all| - 1] == filePaths + init;
      BuildPathMapExtends(filePaths, init);
      BuildPathMapValid(filePaths + init);
      InsertPathStep(BuildPathMap(filePaths + init), more[|more| - 1]);
      ExtendsTransitive(BuildPathMap(filePaths), BuildPathMap(filePaths + init), BuildPathMap(all));
    }
  }

  /** The cumulative path of a path whose first segment is non-empty is the path itself. */
  lemma {:induction false} PrefixIsJoin(parts: seq<string>, n: nat)
    requires 1 <= n <= |parts| && parts[0] != ""
    ensures Prefix(parts, n) == Join(parts[..n], '/')
  {
    if n == 1 {
      assert Prefix(parts, 1) == parts[0];
    } else {
      PrefixIsJoin(parts, n - 1);
      JoinAppend(parts[..n - 1], [parts[n - 1]], '/');
      assert parts[..n - 1] + [parts[n - 1]] == parts[..n];
      assert Prefix(parts, n - 1) != "" by {
        PrefixNonEmpty(parts, n - 1);
      }
    }
  }

  /** Once the first segment is non-empty, no cumulative path is empty again. */
  lemma {:induction false} PrefixNonEmpty(parts: seq<string>, n: nat)
    requires 1 <= n <= |parts| && parts[0] != ""
    ensures Prefix(parts, n) != ""
  {
    if n > 1 {
      PrefixNonEmpty(parts, n - 1);
    }
  }

  /** Every input path that does not start with `/` has a node under its own path. */
  lemma EveryInputPathRecorded(filePaths: seq<string>, j: nat)
    requires j < |filePaths| && filePaths[j] != "" && filePaths[j][0] != '/'
    ensures filePaths[j] in BuildPathMap(filePaths).index
  {
    var parts := Split(filePaths[j], '/');
    BuildPathMapValid(filePaths);
    JoinSplit(filePaths[j], '/');
    assert parts[0] == [filePaths[j][0]] + Split(filePaths[j][1..], '/')[0];
    PrefixIsJoin(parts, |parts|);
    assert parts[..|parts|] == parts;
  }

  /** The nested node read off the arena at slot `id`. */
  function Materialize(m: PathMap, id: nat): (node: FileTreeNode)
    requires Valid(m) && id < |m.slots|
    ensures node.name == m.slots[id].name && node.path == m.slots[id].path && node.kind == m.slots[id].kind
    decreases |m.slots| - id, 1
  {
    var s := m.slots[id];
    assert ChildrenOrdered(m, id);
    FileTreeNode(s.name, s.path, s.kind, if s.children.Some? then Present(MaterializeAll(m, id, s.children.value)) else Absent)
  }

  /** The nested nodes for the slot numbers `ids`, all children of slot `parent`. */
  function MaterializeAll(m: PathMap, parent: nat, ids: seq<nat>): (nodes: seq<FileTreeNode>)
    requires Valid(m) && parent < |m.slots|
    requires forall a :: 0 <= a < |ids| ==> parent < ids[a] < |m.slots|
    ensures |nodes| == |ids|
    ensures forall a :: 0 <= a < |ids| ==> nodes[a] == Materialize(m, ids[a])
    decreases |m.slots| - parent, 0, |ids|
  {
    if ids == [] then [] else [Materialize(m, ids[0])] + MaterializeAll(m, parent, ids[1..])
  }

  /** `pathMap.get('')?.children || []`: the root's children, read off the arena. */
  function RootChildren(m: PathMap): seq<FileTreeNode>
    requires Valid(m)
  {
    assert ChildrenOrdered(m, 0);
    MaterializeAll(m, 0, m.slots[0].children.value)
  }

    /** The inner `parts.forEach` of `buildFileTree`: walks one input path's segments from the
      root, creating each missing node and pushing it onto its parent's children. */
  method AddPath(index0: map<string, nat>, slots0: seq<Slot>, filePath: string)
    returns (index: map<string, nat>, slots: seq<Slot>)
    ensures PathMap(index, slots) == InsertPath(PathMap(index0, slots0), filePath)
  {
    index, slots := index0, slots0;
    var parts := Split(filePath, '/');
    var currentPath := "";
    var k := 0;
    while k < |parts|
      invariant 0 <= k <= |parts|
      invariant Walk(PathMap(index, slots), parts, k, currentPath) == InsertPath(PathMap(index0, slots0), filePath)
    {
      ghost var before := PathMap(index, slots);
      ghost var after := Visit(before, currentPath, parts[k], k == |parts| - 1);
      var parentPath := currentPath;
      currentPath := Extend(currentPath, parts[k]);
      if currentPath !in index {
        var isFile := k == |parts| - 1;
        var id := |slots|;
        index := index[currentPath := id];
        slots := slots + [NewSlot(parentPath, parts[k], isFile)];
        if parentPath in index && index[parentPath] < |slots| && slots[index[parentPath]].children.Some? {
          var p := index[parentPath];
          var children: seq<nat> := slots[p].children.value + [id];
          slots := slots[p := slots[p].(children := Some(children))];
        }
      }
      assert after == PathMap(index, slots);
      k := k + 1;
    }
  }

  /** `buildFileTree`: the nested tree of the given paths, built in one pass over a path lookup. */
  method BuildFileTree(filePaths: seq<string>) returns (tree: seq<FileTreeNode>)
    ensures Valid(BuildPathMap(filePaths))
    ensures tree == RootChildren(BuildPathMap(filePaths))
  {
    var index: map<string, nat> := map["" := 0];
    var slots: seq<Slot> := [Slot("", "", Directory, Some([]))];
    var i := 0;
    while i < |filePaths|
      invariant 0 <= i <= |filePaths|
      invariant PathMap(index, slots) == BuildPathMap(filePaths[..i])
    {
      index, slots := AddPath(index, slots, filePaths[i]);
      assert filePaths[..i + 1][..i] == filePaths[..i];
      i := i + 1;
    }
    assert filePaths[..i] == filePaths;
    BuildPathMapValid(filePaths);
    tree := RootChildren(PathMap(index, slots));
  }

  /** The directories that are open when the explorer first renders. */
  const InitialExpanded: set<string> := {"", "react-app"}

  /** `toggleDirectory`: a copy of the expanded set with `path` flipped. */
  function ToggleDirectory(expanded: set<string>, path: string): (r: set<string>)
    ensures path in r <==> path !in expanded
    ensures forall q :: q != path ==> (q in r <==> q in expanded)
  {
    if path in expanded then expanded - {path} else expanded + {path}
  }

  /** Toggling the same directory twice restores the expanded set. */
  lemma ToggleTwice(expanded: set<string>, path: string)
    ensures ToggleDirectory(ToggleDirectory(expanded, path), path) == expanded
  {
  }

  /** The rename request `onRename(oldPath, newPath)`. */
  datatype RenameRequest = RenameRequest(oldPath: string, newPath: string)

  /** The add request `onFileAdd(parentPath, name)` or `onDirectoryAdd(parentPath, name)`. */
  datatype AddRequest = AddRequest(parentPath: string, name: string)

  /** What a submit does: the request it issues, if any, and whether it closes the input. */
  datatype Submission<R> = Submission(request: Option<R>, closesInput: bool)

  /** `handleRenameSubmit`: when the trimmed value is non-empty and a handler exists, issue a
      rename whose new path replaces the last segment of the old one; always close the input. */
  method SubmitRename(oldPath: string, renameValue: string, hasHandler: bool) returns (s: Submission<RenameRequest>)
    ensures s.closesInput
    ensures s.request.Some? <==> hasHandler && !IsBlank(renameValue)
    ensures s.request.Some? ==> s.request.value.oldPath == oldPath
    ensures s.request.Some? ==>
      var parts := Split(oldPath, '/');
      s.request.value.newPath == Join(parts[..|parts| - 1] + [Trim(renameValue)], '/')
    ensures s.request.Some? && '/' !in Trim(renameValue) ==>
      var parts := Split(oldPath, '/');
      Split(s.request.value.newPath, '/') == parts[..|parts| - 1] + [Trim(renameValue)]
  {
    var trimmed := Trim(renameValue);
    if trimmed != "" && hasHandler {
      var pathParts := Split(oldPath, '/');
      pathParts := pathParts[|pathParts| - 1 := trimmed];
      var newPath := Join(pathParts, '/');
      ghost var oldParts := Split(oldPath, '/');
      assert pathParts == oldParts[..|oldParts| - 1] + [trimmed];
      if '/' !in trimmed {
        SplitJoin(pathParts, '/');
      }
      s := Submission(Some(RenameRequest(oldPath, newPath)), true);
    } else {
      s := Submission(None, true);
    }
  }

  /** The guard shared by `handleSubmitNewFile` and `handleSubmitNewDirectory`: issue the request
      with the trimmed name only when that name is non-empty and a handler exists, and close the
      input only then. */
  function SubmitNewEntry(parentPath: string, name: string, hasHandler: bool): (s: Submission<AddRequest>)
    ensures s.closesInput <==> s.request.Some?
    ensures s.request.Some? <==> hasHandler && !IsBlank(name)
    ensures s.request.Some? ==> s.request.value.parentPath == parentPath && s.request.value.name == Trim(name)
    ensures s.request.Some? ==>
      s.request.value.name != "" && !IsWhitespace(s.request.value.name[0]) && !IsWhitespace(Last(s.request.value.name))
  {
    var trimmed := Trim(name);
    if trimmed != "" && hasHandler then Submission(Some(AddRequest(parentPath, trimmed)), true)
    else Submission(None, false)
  }

  /** One rendered row of the explorer. */
  datatype Row = Row(name: string, path: string, kind: NodeType)

  function RowOf(node: FileTreeNode): Row {
    Row(node.name, node.path, node.kind)
  }

  /** A file named `.gitkeep`: kept in the tree, never rendered. */
  predicate IsGitkeep(node: FileTreeNode) {
    node.kind == File && node.name == ".gitkeep"
  }

  /** `renderNode`: a directory renders its row and, when its path is expanded and it has a
      children list, its children; a file renders its row unless it is a `.gitkeep`. */
  function RenderNode(node: FileTreeNode, expanded: set<string>): seq<Row>
    decreases node
  {
    if node.kind == Directory then
      [RowOf(node)] + (if node.path in expanded && node.children.Present? then RenderNodes(node.children.nodes, expanded) else [])
    else if node.name == ".gitkeep" then []
    else [RowOf(node)]
  }

  /** `nodes.map((node) => renderNode(node))`, one after the other. */
  function RenderNodes(nodes: seq<FileTreeNode>, expanded: set<string>): seq<Row>
    decreases nodes
  {
    if nodes == [] then [] else RenderNode(nodes[0], expanded) + RenderNodes(nodes[1..], expanded)
  }

  /** Every node of a forest, in depth-first pre-order. */
  function Preorder(nodes: seq<FileTreeNode>): seq<FileTreeNode>
    decreases nodes
  {
    if nodes == [] then []
    else
      var n := nodes[0];
      [n] + (if n.children.Present? then Preorder(n.children.nodes) else []) + Preorder(nodes[1..])
  }

  /** The rows of the nodes in `ns` that are not `.gitkeep` files, in order. */
  function VisibleRows(ns: seq<FileTreeNode>): seq<Row> {
    if ns == [] then [] else (if IsGitkeep(ns[0]) then [] else [RowOf(ns[0])]) + VisibleRows(ns[1..])
  }

  lemma {:induction false} VisibleRowsAppend(a: seq<FileTreeNode>, b: seq<FileTreeNode>)
    ensures VisibleRows(a + b) == VisibleRows(a) + VisibleRows(b)
  {
    if a == [] {
      assert a + b == b;
    } else {
      assert (a + b)[1..] == a[1..] + b;
      VisibleRowsAppend(a[1..], b);
    }
  }

  /** Every directory in the forest is expanded. */
  predicate AllExpanded(nodes: seq<FileTreeNode>, expanded: set<string>) {
    forall n :: n in Preorder(nodes) && n.kind == Directory ==> n.path in expanded
  }

  /** Every rendered row belongs to a node that is not a `.gitkeep` file. */
  lemma {:induction false} RenderedRowsAreVisibleNodes(nodes: seq<FileTreeNode>, expanded: set<string>)
    ensures forall r :: r in RenderNodes(nodes, expanded) ==>
      exists n :: n in Preorder(nodes) && !IsGitkeep(n) && r == RowOf(n)
    decreases nodes
  {
    if nodes != [] {
      var n := nodes[0];
      var pre := Preorder(nodes);
      var kids := if n.children.Present? then Preorder(n.children.nodes) else [];
      assert pre == [n] + kids + Preorder(nodes[1..]);
      if n.children.Present? {
        RenderedRowsAreVisibleNodes(n.children.nodes, expanded);
      }
      RenderedRowsAreVisibleNodes(nodes[1..], expanded);
      forall r | r in RenderNodes(nodes, expanded) ensures exists c :: c in pre && !IsGitkeep(c) && r == RowOf(c) {
        if r in RenderNode(n, expanded) {
          if r == RowOf(n) {
            assert n in pre && !IsGitkeep(n);
          } else {
            assert n.kind == Directory && n.path in expanded && n.children.Present?;
            assert RenderNode(n, expanded) == [RowOf(n)] + RenderNodes(n.children.nodes, expanded);
            assert r in RenderNodes(n.children.nodes, expanded);
            var c :| c in Preorder(n.children.nodes) && !IsGitkeep(c) && r == RowOf(c);
            assert c in pre;
          }
        } else {
          assert r in RenderNodes(nodes[1..], expanded);
          var c :| c in Preorder(nodes[1..]) && !IsGitkeep(c) && r == RowOf(c);
          assert c in pre;
        }
      }
    }
  }

  /** With every directory expanded, the rows are exactly the non-`.gitkeep` nodes in pre-order. */
  lemma {:induction false} FullyExpandedShowsAllButGitkeep(nodes: seq<FileTreeNode>, expanded: set<string>)
    requires AllExpanded(nodes, expanded)
    requires forall n :: n in Preorder(nodes) ==> (n.children.Present? <==> n.kind == Directory)
    ensures RenderNodes(nodes, expanded) == VisibleRows(Preorder(nodes))
    decreases nodes
  {
    if nodes != [] {
      var n := nodes[0];
      var kids := if n.children.Present? then Preorder(n.children.nodes) else [];
      var rest := Preorder(nodes[1..]);
      assert Preorder(nodes) == [n] + kids + rest;
      assert forall c :: c in rest ==> c in Preorder(nodes);
      FullyExpandedShowsAllButGitkeep(nodes[1..], expanded);
      if n.children.Present? {
        assert forall c :: c in kids ==> c in Preorder(nodes);
        FullyExpandedShowsAllButGitkeep(n.children.nodes, expanded);
      }
      VisibleRowsAppend([n] + kids, rest);
      VisibleRowsAppend([n], kids);
    }
  }

  /** A collapsed directory renders its own row only. */
  lemma CollapsedDirectoryHidesChildren(node: FileTreeNode, expanded: set<string>)
    requires node.kind == Directory && node.path !in expanded
    ensures RenderNode(node, expanded) == [RowOf(node)]
  {
  }

  /** The path of a node's parent: the text before the last `/`, or the root's empty path when
      there is no `/`. */
  function ParentPath(p: string): (q: string)
    ensures |q| <= |p| && q == p[..|q|]
    ensures p != "" ==> |q| < |p|
    decreases |p|
  {
    if '/' !in p then ""
    else if p[|p| - 1] == '/' then p[..|p| - 1]
    else ParentPath(p[..|p| - 1])
  }

  /** A cumulative path extended by a segment without `/` has the path it extends as its parent. */
  lemma {:induction false} ParentOfExtend(parentPath: string, part: string)
    requires '/' !in part
    ensures ParentPath(Extend(parentPath, part)) == parentPath
    decreases |part|
  {
    if parentPath != "" {
      var e := Extend(parentPath, part);
      assert e[|parentPath|] == '/';
      if part == [] {
        assert e[..|e| - 1] == parentPath;
      } else {
        var shorter := part[..|part| - 1];
        assert '/' !in shorter by {
          forall c | c in shorter ensures c != '/' { assert c in part; }
        }
        assert e[|e| - 1] == part[|part| - 1];
        assert e[..|e| - 1] == Extend(parentPath, shorter);
        ParentOfExtend(parentPath, shorter);
      }
    }
  }

  /** The path has a node, and that node is a directory. */
  predicate IsDirectoryAt(m: PathMap, p: string) {
    p in m.index && m.index[p] < |m.slots| && m.slots[m.index[p]].kind == Directory
  }

  /** The path has a node, and that node is a file. */
  predicate IsFileAt(m: PathMap, p: string) {
    p in m.index && m.index[p] < |m.slots| && m.slots[m.index[p]].kind == File
  }

  /** Every proper ancestor of `p`, from its parent up to the root, has a directory node. */
  predicate UnderDirectories(m: PathMap, p: string)
    decreases |p|
  {
    p == "" || (IsDirectoryAt(m, ParentPath(p)) && UnderDirectories(m, ParentPath(p)))
  }

  /** Slot `i` has a segment name without `/`, its parent's path has a node created before it,
      and a parent that is a directory lists it among its children. */
  predicate LinkedAt(m: PathMap, i: nat)
    requires i < |m.slots|
  {
    var q := ParentPath(m.slots[i].path);
    && '/' !in m.slots[i].name
    && q in m.index && m.index[q] < i
    && (m.slots[m.index[q]].kind == Directory ==>
          m.slots[m.index[q]].children.Some? && i in m.slots[m.index[q]].children.value)
  }

  /** Every node but the root hangs below its parent's node whenever that parent is a directory. */
  predicate Linked(m: PathMap) {
    forall i :: 1 <= i < |m.slots| ==> LinkedAt(m, i)
  }

  /** One step of the walk with a segment that holds no `/` keeps every node linked to its parent. */
  lemma VisitLinked(m: PathMap, parentPath: string, part: string, isFile: bool)
    requires Valid(m) && Linked(m) && parentPath in m.index && '/' !in part
    ensures Linked(Visit(m, parentPath, part, isFile))
  {
    if Extend(parentPath, part) !in m.index {
      var r := Visit(m, parentPath, part, isFile);
      VisitNew(m, parentPath, part, isFile);
      ParentOfExtend(parentPath, part);
      forall i | 1 <= i < |r.slots| ensures LinkedAt(r, i) {
        if i < |m.slots| {
          assert LinkedAt(m, i);
          assert SlotGrows(m.slots[i], r.slots[i]);
          var q := ParentPath(m.slots[i].path);
          assert SlotGrows(m.slots[m.index[q]], r.slots[m.index[q]]);
        }
      }
    }
  }

  /** Walking segments that hold no `/` keeps every node linked to its parent. */
  lemma {:induction false} WalkLinked(m: PathMap, parts: seq<string>, k: nat)
    requires Valid(m) && Linked(m) && k <= |parts| && Prefix(parts, k) in m.index
    requires forall a :: 0 <= a < |parts| ==> '/' !in parts[a]
    ensures Linked(Walk(m, parts, k, Prefix(parts, k)))
    decreases |parts| - k
  {
    if k < |parts| {
      VisitStep(m, Prefix(parts, k), parts[k], k == |parts| - 1);
      VisitLinked(m, Prefix(parts, k), parts[k], k == |parts| - 1);
      WalkLinked(Visit(m, Prefix(parts, k), parts[k], k == |parts| - 1), parts, k + 1);
    }
  }

  /** In the lookup built from any path list, every node is linked to its parent. */
  lemma {:induction false} BuildPathMapLinked(filePaths: seq<string>)
    ensures Linked(BuildPathMap(filePaths))
    decreases |filePaths|
  {
    if filePaths != [] {
      var init := filePaths[..|filePaths| - 1];
      var m := BuildPathMap(init);
      BuildPathMapValid(init);
      BuildPathMapLinked(init);
      assert m.slots[0].path in m.index;
      WalkLinked(m, Split(filePaths[|filePaths| - 1], '/'), 0);
    }
  }

  /** Some node of the tree read off the lookup has path `p`. */
  predicate InTree(m: PathMap, p: string)
    requires Valid(m)
  {
    exists node :: node in Preorder(RootChildren(m)) && node.path == p
  }

  /** A node of a forest is in its pre-order. */
  lemma {:induction false} InPreorder(nodes: seq<FileTreeNode>, c: FileTreeNode)
    requires c in nodes
    ensures c in Preorder(nodes)
    decreases nodes
  {
    if c != nodes[0] {
      InPreorder(nodes[1..], c);
    }
  }

  /** The pre-order of a forest holds the children of each node it holds. */
  lemma {:induction false} PreorderHoldsChildren(nodes: seq<FileTreeNode>, n: FileTreeNode, c: FileTreeNode)
    requires n in Preorder(nodes) && n.children.Present? && c in n.children.nodes
    ensures c in Preorder(nodes)
    decreases nodes
  {
    var h := nodes[0];
    var kids := if h.children.Present? then Preorder(h.children.nodes) else [];
    assert Preorder(nodes) == [h] + kids + Preorder(nodes[1..]);
    if n == h {
      InPreorder(h.children.nodes, c);
    } else if n in kids {
      PreorderHoldsChildren(h.children.nodes, n, c);
    } else {
      PreorderHoldsChildren(nodes[1..], n, c);
    }
  }

  /** Every node of the forest read off children of slot `j` is the node of a non-root slot whose
      ancestors are all directories, provided `j`'s ancestors are. */
  lemma {:induction false} PreorderSlots(m: PathMap, j: nat, ids: seq<nat>)
    requires Valid(m) && Linked(m) && j < |m.slots| && m.slots[j].children.Some?
    requires forall a :: 0 <= a < |ids| ==> j < ids[a] < |m.slots| && ids[a] in m.slots[j].children.value
    requires UnderDirectories(m, m.slots[j].path)
    ensures forall node :: node in Preorder(MaterializeAll(m, j, ids)) ==>
      exists k :: 0 < k < |m.slots| && node == Materialize(m, k) && UnderDirectories(m, m.slots[k].path)
    decreases |m.slots| - j, |ids|
  {
    if ids != [] {
      var k := ids[0];
      var n := Materialize(m, k);
      var nodes := MaterializeAll(m, j, ids);
      assert ChildrenOrdered(m, j);
      assert LinkedAt(m, k);
      ParentOfExtend(m.slots[j].path, m.slots[k].name);
      assert IsDirectoryAt(m, m.slots[j].path);
      assert UnderDirectories(m, m.slots[k].path);
      PreorderSlots(m, j, ids[1..]);
      var kids := if n.children.Present? then Preorder(n.children.nodes) else [];
      if n.children.Present? {
        assert ChildrenOrdered(m, k);
        PreorderSlots(m, k, m.slots[k].children.value);
      }
      assert nodes[1..] == MaterializeAll(m, j, ids[1..]);
      assert Preorder(nodes) == [n] + kids + Preorder(nodes[1..]);
    }
  }

  /** A non-root slot whose ancestors all have directory nodes is read off into the tree. */
  lemma {:induction false} SlotInTree(m: PathMap, i: nat)
    requires Valid(m) && Linked(m) && 1 <= i < |m.slots| && UnderDirectories(m, m.slots[i].path)
    ensures Materialize(m, i) in Preorder(RootChildren(m))
    decreases i
  {
    assert m.slots[0].path in m.index;
    var q := ParentPath(m.slots[i].path);
    assert LinkedAt(m, i);
    var p := m.index[q];
    var cs := m.slots[p].children.value;
    assert ChildrenOrdered(m, p);
    var a :| 0 <= a < |cs| && cs[a] == i;
    if p == 0 {
      assert RootChildren(m)[a] == Materialize(m, i);
      InPreorder(RootChildren(m), Materialize(m, i));
    } else {
      SlotInTree(m, p);
      assert MaterializeAll(m, p, cs)[a] == Materialize(m, i);
      PreorderHoldsChildren(RootChildren(m), Materialize(m, p), Materialize(m, i));
    }
  }

  /** Every node of the tree read off a linked lookup is a recorded non-root path whose ancestors
      all have directory nodes. */
  lemma InTreeIsUnderDirectories(m: PathMap, p: string)
    requires Valid(m) && Linked(m) && InTree(m, p)
    ensures p != "" && p in m.index && UnderDirectories(m, p)
  {
    assert m.slots[0].path in m.index;
    var node :| node in Preorder(RootChildren(m)) && node.path == p;
    assert ChildrenOrdered(m, 0);
    PreorderSlots(m, 0, m.slots[0].children.value);
    var k :| 0 < k < |m.slots| && node == Materialize(m, k) && UnderDirectories(m, m.slots[k].path);
    assert m.slots[k].path == p;
  }

  /** Every recorded non-root path whose ancestors all have directory nodes is in the tree read
      off a linked lookup. */
  lemma UnderDirectoriesIsInTree(m: PathMap, p: string)
    requires Valid(m) && Linked(m) && p != "" && p in m.index && UnderDirectories(m, p)
    ensures InTree(m, p)
  {
    assert m.slots[0].path in m.index;
    var i := m.index[p];
    SlotInTree(m, i);
    assert Materialize(m, i).path == p;
  }

  /** In a lookup whose nodes are linked to their parents, the tree read off it holds exactly the
      recorded paths, other than the root, whose every ancestor has a directory node. So a path
      below one that was first created as a file is recorded but unreachable. */
  lemma TreeHoldsUnderDirectories(m: PathMap, p: string)
    requires Valid(m) && Linked(m)
    ensures InTree(m, p) <==> p != "" && p in m.index && UnderDirectories(m, p)
  {
    if InTree(m, p) {
      InTreeIsUnderDirectories(m, p);
    }
    if p != "" && p in m.index && UnderDirectories(m, p) {
      UnderDirectoriesIsInTree(m, p);
    }
  }

  /** `TreeHoldsUnderDirectories` for the lookup built from any path list. */
  lemma BuiltTreeHoldsUnderDirectories(filePaths: seq<string>, p: string)
    ensures Valid(BuildPathMap(filePaths))
    ensures InTree(BuildPathMap(filePaths), p) <==>
      p != "" && p in BuildPathMap(filePaths).index && UnderDirectories(BuildPathMap(filePaths), p)
  {
    BuildPathMapValid(filePaths);
    BuildPathMapLinked(filePaths);
    TreeHoldsUnderDirectories(BuildPathMap(filePaths), p);
  }

  /** The ancestors of a cumulative path are the previous cumulative path and its ancestors. */
  lemma UnderDirectoriesStep(m: PathMap, parts: seq<string>, n: nat)
    requires Valid(m) && 1 <= n <= |parts| && '/' !in parts[n - 1]
    ensures UnderDirectories(m, Prefix(parts, n)) <==>
      IsDirectoryAt(m, Prefix(parts, n - 1)) && UnderDirectories(m, Prefix(parts, n - 1))
  {
    var q := Prefix(parts, n - 1);
    ParentOfExtend(q, parts[n - 1]);
    if Prefix(parts, n) == "" {
      assert q == "";
      assert m.slots[0].path in m.index;
    }
  }

  /** Each of the first `n` cumulative paths, the root's included, has a directory node. */
  predicate PrefixesAreDirectories(m: PathMap, parts: seq<string>, n: nat)
    requires n <= |parts|
  {
    n == 0 || (IsDirectoryAt(m, Prefix(parts, n - 1)) && PrefixesAreDirectories(m, parts, n - 1))
  }

  /** `PrefixesAreDirectories` quantifies over the earlier cumulative paths. */
  lemma {:induction false} PrefixesAreDirectoriesAll(m: PathMap, parts: seq<string>, n: nat)
    requires n <= |parts|
    ensures PrefixesAreDirectories(m, parts, n) <==> forall k :: 0 <= k < n ==> IsDirectoryAt(m, Prefix(parts, k))
    decreases n
  {
    if n > 0 {
      PrefixesAreDirectoriesAll(m, parts, n - 1);
      if PrefixesAreDirectories(m, parts, n) {
        forall k | 0 <= k < n ensures IsDirectoryAt(m, Prefix(parts, k)) {
          if k < n - 1 { assert IsDirectoryAt(m, Prefix(parts, k)); }
        }
      } else {
        var k := n - 1;
        if IsDirectoryAt(m, Prefix(parts, k)) {
          k :| 0 <= k < n - 1 && !IsDirectoryAt(m, Prefix(parts, k));
        }
        assert 0 <= k < n && !IsDirectoryAt(m, Prefix(parts, k));
      }
    }
  }

  /** The ancestors of the cumulative path after `n` segments are the earlier cumulative paths. */
  lemma {:induction false} UnderDirectoriesPrefix(m: PathMap, parts: seq<string>, n: nat)
    requires Valid(m) && n <= |parts| && forall a :: 0 <= a < |parts| ==> '/' !in parts[a]
    ensures UnderDirectories(m, Prefix(parts, n)) <==> PrefixesAreDirectories(m, parts, n)
    decreases n
  {
    if n > 0 {
      UnderDirectoriesPrefix(m, parts, n - 1);
      UnderDirectoriesStep(m, parts, n);
    }
  }

  /** The cumulative path after `n` segments of an input path is in the built tree exactly when it
      is not the root and every earlier cumulative path has a directory node. */
  lemma InputPrefixInTree(filePaths: seq<string>, j: nat, n: nat)
    requires j < |filePaths| && n <= |Split(filePaths[j], '/')|
    ensures Valid(BuildPathMap(filePaths))
    ensures var parts := Split(filePaths[j], '/');
      InTree(BuildPathMap(filePaths), Prefix(parts, n)) <==>
        Prefix(parts, n) != "" && forall k :: 0 <= k < n ==> IsDirectoryAt(BuildPathMap(filePaths), Prefix(parts, k))
  {
    var parts := Split(filePaths[j], '/');
    BuildPathMapValid(filePaths);
    BuiltTreeHoldsUnderDirectories(filePaths, Prefix(parts, n));
    UnderDirectoriesPrefix(BuildPathMap(filePaths), parts, n);
    PrefixesAreDirectoriesAll(BuildPathMap(filePaths), parts, n);
  }

  /** Nothing below a cumulative path whose node is a file reaches the built tree. */
  lemma BelowFileIsUnreachable(filePaths: seq<string>, j: nat, k: nat, n: nat)
    requires j < |filePaths| && k < n <= |Split(filePaths[j], '/')|
    requires IsFileAt(BuildPathMap(filePaths), Prefix(Split(filePaths[j], '/'), k))
    ensures Valid(BuildPathMap(filePaths))
    ensures !InTree(BuildPathMap(filePaths), Prefix(Split(filePaths[j], '/'), n))
  {
    InputPrefixInTree(filePaths, j, n);
    assert !IsDirectoryAt(BuildPathMap(filePaths), Prefix(Split(filePaths[j], '/'), k));
  }

  /** Each node read off a valid lookup has a children list exactly when it is a directory. */
  lemma {:induction false} MaterializedShape(m: PathMap, j: nat, ids: seq<nat>)
    requires Valid(m) && j < |m.slots| && forall a :: 0 <= a < |ids| ==> j < ids[a] < |m.slots|
    ensures forall n :: n in Preorder(MaterializeAll(m, j, ids)) ==> (n.children.Present? <==> n.kind == Directory)
    decreases |m.slots| - j, |ids|
  {
    if ids != [] {
      var k := ids[0];
      var n := Materialize(m, k);
      var nodes := MaterializeAll(m, j, ids);
      MaterializedShape(m, j, ids[1..]);
      var kids := if n.children.Present? then Preorder(n.children.nodes) else [];
      if n.children.Present? {
        assert ChildrenOrdered(m, k);
        MaterializedShape(m, k, m.slots[k].children.value);
      }
      assert nodes[1..] == MaterializeAll(m, j, ids[1..]);
      assert Preorder(nodes) == [n] + kids + Preorder(nodes[1..]);
    }
  }

  /** With every directory expanded, the tree read off a valid lookup (in particular the built
      tree) renders exactly its non-`.gitkeep` nodes in pre-order. */
  lemma ValidTreeFullyExpanded(m: PathMap, expanded: set<string>)
    requires Valid(m) && AllExpanded(RootChildren(m), expanded)
    ensures RenderNodes(RootChildren(m), expanded) == VisibleRows(Preorder(RootChildren(m)))
  {
    assert ChildrenOrdered(m, 0);
    MaterializedShape(m, 0, m.slots[0].children.value);
    FullyExpandedShowsAllButGitkeep(RootChildren(m), expanded);
  }
}
