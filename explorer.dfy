/**
 * The file explorer (js/fileExplorer.js): a fixed forest of files and
 * folders, its pre-order flattening into path-carrying entries, the
 * documents folder built from the discovered PDF files, the rows the tree
 * renders, the folder toggle and the highlighted file.
 *
 * The PDF discovery of the build is an input list of (path, url) pairs,
 * the DOM tree is the list of rendered rows, and the `active` marks on the
 * file elements are a set of indices into the rendered file items.
 */
module Explorer {
  import opened Wrappers
  import opened Strings
  import opened Records
  import opened Sequences

  /** A node of the tree: a file leaf, or a folder with its children. */
  datatype Node =
    | File(name: string, icon: string, iconColor: string, language: string, contentId: string, url: Option<string>)
    | Folder(name: string, icon: string, iconColor: string, expanded: bool, children: seq<Node>)

  /** An entry of `getAllFiles`: a file with the slash-joined path leading to it. */
  datatype FileEntry = FileEntry(name: string, path: string, contentId: string, language: string, url: Option<string>)

  /* ---------------------------------------------------------------- */
  /* getAllFiles                                                       */
  /* ---------------------------------------------------------------- */

  /** `extractFiles(items, parentPath)`: the file entries of a list of nodes, in pre-order. */
  function FlattenForest(items: seq<Node>, parentPath: string): (r: seq<FileEntry>)
    decreases items
    ensures |r| == |LeavesOf(items)|
    ensures forall k :: 0 <= k < |r| ==> IsPrefix(parentPath, r[k].path)
  {
    if items == [] then [] else FlattenNode(items[0], parentPath) + FlattenForest(items[1..], parentPath)
  }

  /** The file entries of one node: the file itself, or its folder's children under `name/`. */
  function FlattenNode(n: Node, parentPath: string): (r: seq<FileEntry>)
    decreases n
    ensures |r| == |NodeLeaves(n)|
    ensures forall k :: 0 <= k < |r| ==> IsPrefix(parentPath, r[k].path)
  {
    match n
    case File(name, _, _, language, contentId, url) =>
      [FileEntry(name, parentPath + name, contentId, language, OrNull(url))]
    case Folder(name, _, _, _, children) =>
      FlattenForest(children, parentPath + name + "/")
  }

  /**
   * A file leaf of a forest, described independently of any path string:
   * the names of the folders above it, outermost first, and its own fields.
   */
  datatype Leaf = Leaf(ancestors: seq<string>, name: string, contentId: string, language: string, url: Option<string>)

  /** The file leaves of a forest in pre-order, children in array order. */
  function LeavesOf(items: seq<Node>): seq<Leaf>
    decreases items
  {
    if items == [] then [] else NodeLeaves(items[0]) + LeavesOf(items[1..])
  }

  function NodeLeaves(n: Node): seq<Leaf>
    decreases n
  {
    match n
    case File(name, _, _, language, contentId, url) => [Leaf([], name, contentId, language, url)]
    case Folder(name, _, _, _, children) => Under(name, LeavesOf(children))
  }

  /** The leaves of a folder's children, seen from outside the folder `name`. */
  function Under(name: string, leaves: seq<Leaf>): (r: seq<Leaf>)
    ensures |r| == |leaves|
  {
    if leaves == [] then []
    else
      var l := leaves[0];
      [Leaf([name] + l.ancestors, l.name, l.contentId, l.language, l.url)] + Under(name, leaves[1..])
  }

  /** The folder names, each followed by a slash. */
  function FolderPrefix(ancestors: seq<string>): string
  {
    if ancestors == [] then "" else ancestors[0] + "/" + FolderPrefix(ancestors[1..])
  }

  /** The `getAllFiles` entry for a leaf below `parentPath`. */
  function EntryOf(parentPath: string, l: Leaf): (e: FileEntry)
    ensures e.name == l.name && e.contentId == l.contentId && e.language == l.language
    ensures e.url == OrNull(l.url)
    ensures IsSuffix(e.name, e.path)
  {
    var path := parentPath + FolderPrefix(l.ancestors) + l.name;
    assert path[|path| - |l.name|..] == l.name;
    FileEntry(l.name, path, l.contentId, l.language, OrNull(l.url))
  }

  function LeafEntries(parentPath: string, leaves: seq<Leaf>): (r: seq<FileEntry>)
    ensures |r| == |leaves|
    ensures forall i :: 0 <= i < |r| ==> r[i] == EntryOf(parentPath, leaves[i])
  {
    if leaves == [] then [] else [EntryOf(parentPath, leaves[0])] + LeafEntries(parentPath, leaves[1..])
  }

  lemma {:induction false} LeafEntriesAppend(p: string, a: seq<Leaf>, b: seq<Leaf>)
    ensures LeafEntries(p, a + b) == LeafEntries(p, a) + LeafEntries(p, b)
  {
    assert forall i :: 0 <= i < |a + b| ==> LeafEntries(p, a + b)[i] == EntryOf(p, (a + b)[i]);
  }

  /** Viewing a folder's leaves from outside it is the same as extending the path by `name/`. */
  lemma {:induction false} LeafEntriesUnder(p: string, name: string, leaves: seq<Leaf>)
    ensures LeafEntries(p, Under(name, leaves)) == LeafEntries(p + name + "/", leaves)
    decreases leaves
  {
    if leaves != [] {
      LeafEntriesUnder(p, name, leaves[1..]);
      var l := leaves[0];
      var anc := [name] + l.ancestors;
      assert anc[1..] == l.ancestors;
      assert FolderPrefix(anc) == name + "/" + FolderPrefix(l.ancestors);
      assert p + FolderPrefix(anc) + l.name == (p + name + "/") + FolderPrefix(l.ancestors) + l.name;
    }
  }

  /**
   * `getAllFiles` lists exactly the file leaves of the forest, in pre-order:
   * each entry carries the leaf's own fields, `url` made null when absent,
   * and a path made of the folder names above it, each followed by `/`,
   * then the file's name.
   */
  lemma {:induction false} FlattenIsLeaves(items: seq<Node>, parentPath: string)
    ensures FlattenForest(items, parentPath) == LeafEntries(parentPath, LeavesOf(items))
    decreases items
  {
    if items != [] {
      NodeFlattenIsLeaves(items[0], parentPath);
      FlattenIsLeaves(items[1..], parentPath);
      LeafEntriesAppend(parentPath, NodeLeaves(items[0]), LeavesOf(items[1..]));
    }
  }

  lemma {:induction false} NodeFlattenIsLeaves(n: Node, parentPath: string)
    ensures FlattenNode(n, parentPath) == LeafEntries(parentPath, NodeLeaves(n))
    decreases n
  {
    match n
    case File(name, _, _, language, contentId, url) =>
      assert FolderPrefix([]) == "";
      assert parentPath + FolderPrefix([]) + name == parentPath + name;
    case Folder(name, _, _, _, children) =>
      FlattenIsLeaves(children, parentPath + name + "/");
      LeafEntriesUnder(parentPath, name, LeavesOf(children));
  }

  /** Every path ends with the entry's own name. */
  lemma PathEndsWithName(items: seq<Node>, parentPath: string)
    ensures var r := FlattenForest(items, parentPath);
            forall i :: 0 <= i < |r| ==> IsSuffix(r[i].name, r[i].path)
  {
    FlattenIsLeaves(items, parentPath);
  }

  /* ---------------------------------------------------------------- */
  /* Rendering                                                         */
  /* ---------------------------------------------------------------- */

  /** The data a rendered file element carries; `url` is set only when the file has a non-empty one. */
  datatype FileItem = FileItem(contentId: string, language: string, fileName: string, url: Option<string>)

  /**
   * A folder element's state: the `collapsed` class, the chevron direction,
   * and its children container when the folder has children.
   */
  datatype FolderView = FolderView(collapsed: bool, chevronDown: bool, container: Option<Container>)

  /** A children container: how many children it holds, its max height in px, the `expanding` class. */
  datatype Container = Container(childCount: nat, maxHeight: nat, expanding: bool)

  /** One rendered element of the tree, with its nesting level and left padding in px. */
  datatype Row =
    | FolderRow(name: string, level: nat, padding: nat, view: FolderView)
    | FileRow(item: FileItem, level: nat, padding: nat)

  /** How a folder looks when first rendered: its children container is 30 px per child high when expanded, 0 otherwise. */
  function InitialView(expanded: bool, childCount: nat): (v: FolderView)
    ensures v.collapsed == !expanded && v.chevronDown == expanded
    ensures childCount == 0 <==> v.container.None?
    ensures v.container.Some? ==> v.container.value.childCount == childCount && !v.container.value.expanding
    ensures v.container.Some? ==> (v.container.value.maxHeight == if expanded then 30 * childCount else 0)
  {
    FolderView(!expanded, expanded, if childCount > 0 then Some(Container(childCount, if expanded then childCount * 30 else 0, false)) else None)
  }

  /** `renderItem` over a list of nodes at depth `level`: the rows in document order. */
  function RenderForest(items: seq<Node>, level: nat): (r: seq<Row>)
    decreases items
    ensures |r| >= |items|
    ensures items != [] ==> r[0].level == level
  {
    if items == [] then [] else RenderNode(items[0], level) + RenderForest(items[1..], level)
  }

  /** `renderFolder` and `renderFile`. */
  function RenderNode(n: Node, level: nat): (r: seq<Row>)
    decreases n
    ensures |r| >= 1 && r[0].level == level
    ensures r[0].FileRow? <==> n.File?
    ensures n.File? ==> |r| == 1
    ensures n.Folder? ==> r[0] == FolderRow(n.name, level, level * 12 + 12, InitialView(n.expanded, |n.children|))
  {
    match n
    case File(name, _, _, language, contentId, url) =>
      [FileRow(FileItem(contentId, language, name, OrNull(url)), level, level * 12 + 28)]
    case Folder(name, _, _, expanded, children) =>
      [FolderRow(name, level, level * 12 + 12, InitialView(expanded, |children|))] + RenderForest(children, level + 1)
  }

  /** The file rows, in document order (what `querySelectorAll('.file-item')` finds). */
  function FileRows(rows: seq<Row>): (r: seq<Row>)
    ensures forall i :: 0 <= i < |r| ==> r[i].FileRow?
  {
    if rows == [] then []
    else (if rows[0].FileRow? then [rows[0]] else []) + FileRows(rows[1..])
  }

  /** The folder views, in document order. */
  function FolderViews(rows: seq<Row>): seq<FolderView>
  {
    if rows == [] then []
    else (if rows[0].FolderRow? then [rows[0].view] else []) + FolderViews(rows[1..])
  }

  lemma {:induction false} FolderViewsAppend(a: seq<Row>, b: seq<Row>)
    ensures FolderViews(a + b) == FolderViews(a) + FolderViews(b)
    decreases a
  {
    if a != [] {
      assert (a + b)[1..] == a[1..] + b;
      FolderViewsAppend(a[1..], b);
    } else {
      assert a + b == b;
    }
  }

  /** The folders of a forest in pre-order, children in array order: a folder before its contents. */
  function FoldersOf(items: seq<Node>): (r: seq<Node>)
    decreases items
    ensures forall i :: 0 <= i < |r| ==> r[i].Folder?
  {
    if items == [] then [] else NodeFolders(items[0]) + FoldersOf(items[1..])
  }

  function NodeFolders(n: Node): (r: seq<Node>)
    decreases n
    ensures forall i :: 0 <= i < |r| ==> r[i].Folder?
  {
    match n
    case File(_, _, _, _, _, _) => []
    case Folder(_, _, _, _, children) => [n] + FoldersOf(children)
  }

  /** How each of the given folders looks when first rendered. */
  function InitialViews(folders: seq<Node>): (r: seq<FolderView>)
    requires forall i :: 0 <= i < |folders| ==> folders[i].Folder?
    ensures |r| == |folders|
    ensures forall i :: 0 <= i < |r| ==> r[i] == InitialView(folders[i].expanded, |folders[i].children|)
  {
    if folders == [] then [] else [InitialView(folders[0].expanded, |folders[0].children|)] + InitialViews(folders[1..])
  }

  lemma InitialViewsAppend(a: seq<Node>, b: seq<Node>)
    requires forall i :: 0 <= i < |a| ==> a[i].Folder?
    requires forall i :: 0 <= i < |b| ==> b[i].Folder?
    ensures InitialViews(a + b) == InitialViews(a) + InitialViews(b)
  {
    assert forall i :: 0 <= i < |a + b| ==> (a + b)[i] == if i < |a| then a[i] else b[i - |a|];
  }

  /**
   * The folder elements appear in the pre-order of the folders, each with
   * the collapsed class, chevron and children max height `renderFolder`
   * gives it.
   */
  lemma {:induction false} RenderedFolderViews(items: seq<Node>, level: nat)
    ensures FolderViews(RenderForest(items, level)) == InitialViews(FoldersOf(items))
    decreases items
  {
    if items != [] {
      RenderedNodeViews(items[0], level);
      RenderedFolderViews(items[1..], level);
      FolderViewsAppend(RenderNode(items[0], level), RenderForest(items[1..], level));
      InitialViewsAppend(NodeFolders(items[0]), FoldersOf(items[1..]));
    }
  }

  lemma {:induction false} RenderedNodeViews(n: Node, level: nat)
    ensures FolderViews(RenderNode(n, level)) == InitialViews(NodeFolders(n))
    decreases n
  {
    match n
    case File(_, _, _, _, _, _) =>
    case Folder(name, _, _, expanded, children) =>
      var head := FolderRow(name, level, level * 12 + 12, InitialView(expanded, |children|));
      assert RenderNode(n, level) == [head] + RenderForest(children, level + 1);
      FolderViewsAppend([head], RenderForest(children, level + 1));
      RenderedFolderViews(children, level + 1);
      InitialViewsAppend([n], FoldersOf(children));
  }

  lemma {:induction false} FileRowsAppend(a: seq<Row>, b: seq<Row>)
    ensures FileRows(a + b) == FileRows(a) + FileRows(b)
    decreases a
  {
    if a != [] {
      assert (a + b)[1..] == a[1..] + b;
      FileRowsAppend(a[1..], b);
    } else {
      assert a + b == b;
    }
  }

  /** The row a leaf renders as when its forest is rendered at depth `level`. */
  function LeafRow(level: nat, l: Leaf): Row
  {
    var depth := level + |l.ancestors|;
    FileRow(FileItem(l.contentId, l.language, l.name, OrNull(l.url)), depth, depth * 12 + 28)
  }

  function LeafRows(level: nat, leaves: seq<Leaf>): (r: seq<Row>)
    ensures |r| == |leaves|
    ensures forall i :: 0 <= i < |r| ==> r[i] == LeafRow(level, leaves[i])
  {
    if leaves == [] then [] else [LeafRow(level, leaves[0])] + LeafRows(level, leaves[1..])
  }

  lemma {:induction false} LeafRowsAppend(level: nat, a: seq<Leaf>, b: seq<Leaf>)
    ensures LeafRows(level, a + b) == LeafRows(level, a) + LeafRows(level, b)
  {
    assert forall i :: 0 <= i < |a + b| ==> LeafRows(level, a + b)[i] == LeafRow(level, (a + b)[i]);
  }

  lemma {:induction false} LeafRowsUnder(level: nat, name: string, leaves: seq<Leaf>)
    ensures LeafRows(level, Under(name, leaves)) == LeafRows(level + 1, leaves)
    decreases leaves
  {
    if leaves != [] {
      LeafRowsUnder(level, name, leaves[1..]);
      assert |[name] + leaves[0].ancestors| == 1 + |leaves[0].ancestors|;
    }
  }

  /**
   * Indentation: the file elements appear in the order of the leaves, each
   * nested one level per folder above it and padded by 12 px per level plus
   * 28 px.
   */
  lemma {:induction false} RenderedFileRows(items: seq<Node>, level: nat)
    ensures FileRows(RenderForest(items, level)) == LeafRows(level, LeavesOf(items))
    decreases items
  {
    if items != [] {
      RenderedNodeRows(items[0], level);
      RenderedFileRows(items[1..], level);
      FileRowsAppend(RenderNode(items[0], level), RenderForest(items[1..], level));
      LeafRowsAppend(level, NodeLeaves(items[0]), LeavesOf(items[1..]));
    }
  }

  lemma {:induction false} RenderedNodeRows(n: Node, level: nat)
    ensures FileRows(RenderNode(n, level)) == LeafRows(level, NodeLeaves(n))
    decreases n
  {
    match n
    case File(_, _, _, _, _, _) =>
      assert FileRows(RenderNode(n, level)) == RenderNode(n, level);
    case Folder(name, _, _, expanded, children) =>
      var head := FolderRow(name, level, level * 12 + 12, InitialView(expanded, |children|));
      assert RenderNode(n, level) == [head] + RenderForest(children, level + 1);
      FileRowsAppend([head], RenderForest(children, level + 1));
      assert FileRows([head]) == [];
      RenderedFileRows(children, level + 1);
      LeafRowsUnder(level, name, LeavesOf(children));
  }

  /** A folder row is padded by 12 px per level plus 12 px, a file row by 12 px per level plus 28 px. */
  predicate RowPadded(r: Row)
  {
    r.padding == r.level * 12 + (if r.FolderRow? then 12 else 28)
  }

  /** Every row is padded for its level and nested at least `level` deep. */
  predicate RowsPadded(rows: seq<Row>, level: nat)
  {
    forall i :: 0 <= i < |rows| ==> RowPadded(rows[i]) && rows[i].level >= level
  }

  lemma RowsPaddedAppend(a: seq<Row>, b: seq<Row>, level: nat)
    requires RowsPadded(a, level) && RowsPadded(b, level)
    ensures RowsPadded(a + b, level)
  {
    assert forall i :: 0 <= i < |a + b| ==> (a + b)[i] == if i < |a| then a[i] else b[i - |a|];
  }

  /** Indentation: every rendered row is padded for the level it is nested at. */
  lemma {:induction false} RenderPadding(items: seq<Node>, level: nat)
    ensures RowsPadded(RenderForest(items, level), level)
    decreases items
  {
    if items != [] {
      RenderPadding(items[1..], level);
      NodePadding(items[0], level);
      RowsPaddedAppend(RenderNode(items[0], level), RenderForest(items[1..], level), level);
    }
  }

  lemma {:induction false} NodePadding(n: Node, level: nat)
    ensures RowsPadded(RenderNode(n, level), level)
    decreases n
  {
    match n
    case File(_, _, _, _, _, _) =>
    case Folder(name, _, _, expanded, children) =>
      RenderPadding(children, level + 1);
      var head := FolderRow(name, level, level * 12 + 12, InitialView(expanded, |children|));
      assert RowsPadded([head], level);
      RowsPaddedAppend([head], RenderForest(children, level + 1), level);
  }

  /** A folder's own row is followed by its contents' rows, all nested deeper than it. */
  lemma NodeContentsDeeper(n: Node, level: nat)
    ensures var r := RenderNode(n, level);
            forall i :: 1 <= i < |r| ==> r[i].level > level
  {
    match n
    case File(_, _, _, _, _, _) =>
    case Folder(name, _, _, expanded, children) =>
      var r := RenderNode(n, level);
      var rest := RenderForest(children, level + 1);
      assert r == [r[0]] + rest;
      RenderPadding(children, level + 1);
      assert forall i :: 1 <= i < |r| ==> r[i] == rest[i - 1];
  }

  /** The items of the file rows. */
  function RowItems(rows: seq<Row>): (r: seq<FileItem>)
    requires forall i :: 0 <= i < |rows| ==> rows[i].FileRow?
    ensures |r| == |rows|
    ensures forall i :: 0 <= i < |r| ==> r[i] == rows[i].item
  {
    if rows == [] then [] else [rows[0].item] + RowItems(rows[1..])
  }

  /** The item an entry of `getAllFiles` corresponds to. */
  function EntryItem(e: FileEntry): FileItem
  {
    FileItem(e.contentId, e.language, e.name, e.url)
  }

  /** The rendered file elements of the tree, in document order. */
  function RenderedItems(files: seq<Node>): seq<FileItem>
  {
    RowItems(FileRows(RenderForest(files, 0)))
  }

  /** The rendered file elements are the entries of `getAllFiles`, one for one and in the same order. */
  lemma RenderedItemsAreAllFiles(files: seq<Node>)
    ensures var entries := FlattenForest(files, "");
            var items := RenderedItems(files);
            |items| == |entries| && forall i :: 0 <= i < |items| ==> items[i] == EntryItem(entries[i])
  {
    RenderedFileRows(files, 0);
    FlattenIsLeaves(files, "");
  }

  /* ---------------------------------------------------------------- */
  /* toggleFolder                                                      */
  /* ---------------------------------------------------------------- */

  /** `toggleFolder`: expand a collapsed folder, collapse an expanded one. */
  function Toggle(v: FolderView): (r: FolderView)
    ensures r.collapsed == !v.collapsed && r.chevronDown == v.collapsed
    ensures r.container.Some? <==> v.container.Some?
    ensures r.container.Some? ==> r.container.value.childCount == v.container.value.childCount
    ensures r.container.Some? && v.collapsed ==>
              r.container.value.maxHeight == 30 * v.container.value.childCount && r.container.value.expanding
    ensures r.container.Some? && !v.collapsed ==>
              r.container.value.maxHeight == 0 && !r.container.value.expanding
  {
    if v.collapsed then
      FolderView(false, true, match v.container
                              case None => None
                              case Some(c) => Some(Container(c.childCount, c.childCount * 30, true)))
    else
      FolderView(true, false, match v.container
                              case None => None
                              case Some(c) => Some(Container(c.childCount, 0, false)))
  }

  /** A view as a toggle leaves it: chevron and container agree with the `collapsed` class. */
  predicate Settled(v: FolderView)
  {
    && v.chevronDown == !v.collapsed
    && (v.container.Some? ==>
         var c := v.container.value;
         if v.collapsed then c.maxHeight == 0 && !c.expanding else c.maxHeight == 30 * c.childCount && c.expanding)
  }

  /** Every toggle leaves a settled view. */
  lemma ToggleSettles(v: FolderView)
    ensures Settled(Toggle(v))
  {
  }

  /** Toggling a settled folder twice restores it. */
  lemma ToggleTwice(v: FolderView)
    requires Settled(v)
    ensures Toggle(Toggle(v)) == v
  {
  }

  /** A folder first rendered collapsed is settled, so two toggles give its first rendering back. */
  lemma CollapsedStartRestored(childCount: nat)
    ensures Toggle(Toggle(InitialView(false, childCount))) == InitialView(false, childCount)
  {
    ToggleTwice(InitialView(false, childCount));
  }

  /**
   * A folder first rendered expanded with children comes back from two
   * toggles with the same class, chevron and height but with the
   * `expanding` class that its first rendering lacks.
   */
  lemma ExpandedStartGainsExpanding(childCount: nat)
    requires childCount > 0
    ensures var v := InitialView(true, childCount);
            var w := Toggle(Toggle(v));
            w.collapsed == v.collapsed && w.chevronDown == v.chevronDown
            && w.container.value.maxHeight == v.container.value.maxHeight
            && w.container.value.expanding && !v.container.value.expanding
  {
  }

  /* ---------------------------------------------------------------- */
  /* buildDocumentsFolder                                              */
  /* ---------------------------------------------------------------- */

  /** The file node for a discovered PDF: named after the last segment of its path. */
  function DocFile(path: string, url: string): (n: Node)
    ensures n.File? && n.name == LastSegment(path, '/') && '/' !in n.name
    ensures n.contentId == "doc:" + n.name && n.language == "pdf" && n.url == Some(url)
  {
    var fileName := LastSegment(path, '/');
    File(fileName, "codicon-file-pdf", "", "pdf", "doc:" + fileName, Some(url))
  }

  function DocFiles(discovered: seq<(string, string)>): (r: seq<Node>)
    ensures |r| == |discovered|
    ensures forall i :: 0 <= i < |r| ==> r[i] == DocFile(discovered[i].0, discovered[i].1)
  {
    if discovered == [] then []
    else [DocFile(discovered[0].0, discovered[0].1)] + DocFiles(discovered[1..])
  }

  /** `a` goes before `b` in the order of names. */
  predicate NameLessEq(a: Node, b: Node)
  {
    LessEq(a.name, b.name)
  }

  predicate SortedByName(s: seq<Node>)
  {
    forall i :: 0 <= i < |s| - 1 ==> NameLessEq(s[i], s[i + 1])
  }

  /** Inserts `x` before the first node whose name is not smaller than its own. */
  function InsertByName(x: Node, s: seq<Node>): (r: seq<Node>)
    ensures multiset(r) == multiset{x} + multiset(s)
    ensures |r| == |s| + 1
  {
    if s == [] then [x]
    else if NameLessEq(x, s[0]) then [x] + s
    else
      assert s == [s[0]] + s[1..];
      [s[0]] + InsertByName(x, s[1..])
  }

  /** `sort` by name (insertion sort; the comparison is the code-point order). */
  function SortByName(s: seq<Node>): (r: seq<Node>)
    ensures multiset(r) == multiset(s)
  {
    if s == [] then []
    else
      assert s == [s[0]] + s[1..];
      InsertByName(s[0], SortByName(s[1..]))
  }

  lemma SortedTail(s: seq<Node>)
    requires SortedByName(s) && s != []
    ensures SortedByName(s[1..])
  {
    var rest := s[1..];
    forall i | 0 <= i < |rest| - 1 ensures NameLessEq(rest[i], rest[i + 1]) {
      assert rest[i] == s[i + 1] && rest[i + 1] == s[(i + 1) + 1];
    }
  }

  /** Inserting into a sorted list keeps it sorted; the first element is `x` or the old first one. */
  lemma {:induction false} InsertKeepsSorted(x: Node, s: seq<Node>)
    requires SortedByName(s)
    ensures SortedByName(InsertByName(x, s))
    ensures InsertByName(x, s)[0] == x || (s != [] && InsertByName(x, s)[0] == s[0])
    decreases s
  {
    if s != [] && !NameLessEq(x, s[0]) {
      var rest := s[1..];
      SortedTail(s);
      InsertKeepsSorted(x, rest);
      var t := InsertByName(x, rest);
      var r := InsertByName(x, s);
      assert r == [s[0]] + t;
      LessEqTotal(x.name, s[0].name);
      assert NameLessEq(s[0], t[0]) by {
        if t[0] != x {
          assert t[0] == rest[0] == s[1];
        }
      }
      SortedCons(s[0], t);
    }
  }

  /** A head no greater than the first element of a sorted list keeps it sorted. */
  lemma SortedCons(x: Node, t: seq<Node>)
    requires SortedByName(t) && t != [] && NameLessEq(x, t[0])
    ensures SortedByName([x] + t)
  {
    var r := [x] + t;
    forall i | 0 <= i < |r| - 1 ensures NameLessEq(r[i], r[i + 1]) {
      if i > 0 {
        assert r[i] == t[i - 1] && r[i + 1] == t[(i - 1) + 1];
      }
    }
  }

  /** The sorted children are in name order. */
  lemma {:induction false} SortIsSorted(s: seq<Node>)
    ensures SortedByName(SortByName(s))
    decreases s
  {
    if s != [] {
      SortIsSorted(s[1..]);
      InsertKeepsSorted(s[0], SortByName(s[1..]));
    }
  }

  /** `buildDocumentsFolder`: the discovered PDFs as files of a collapsed `documents` folder, sorted by name. */
  function BuildDocumentsFolder(discovered: seq<(string, string)>): (n: Node)
    ensures n.Folder? && n.name == "documents" && !n.expanded
    ensures n.icon == "codicon-folder" && n.iconColor == "folder-icon"
    ensures multiset(n.children) == multiset(DocFiles(discovered))
  {
    Folder("documents", "codicon-folder", "folder-icon", false, SortByName(DocFiles(discovered)))
  }

  /**
   * The documents folder holds one PDF file per discovered path, named by
   * the path's last segment, with content id `doc:` + name, sorted by name.
   */
  lemma DocumentsFolderChildren(discovered: seq<(string, string)>)
    ensures var c := BuildDocumentsFolder(discovered).children;
            && SortedByName(c)
            && |c| == |discovered|
            && forall k :: 0 <= k < |c| ==>
                 && c[k].File? && c[k].language == "pdf" && c[k].contentId == "doc:" + c[k].name
                 && exists i :: 0 <= i < |discovered| && c[k] == DocFile(discovered[i].0, discovered[i].1)
  {
    var d := DocFiles(discovered);
    var c := BuildDocumentsFolder(discovered).children;
    SortIsSorted(d);
    assert |c| == |d| by {
      assert |multiset(c)| == |multiset(d)|;
    }
    forall k | 0 <= k < |c|
      ensures exists i :: 0 <= i < |discovered| && c[k] == DocFile(discovered[i].0, discovered[i].1)
    {
      assert c[k] in multiset(c);
      assert c[k] in d;
      var i :| 0 <= i < |d| && d[i] == c[k];
      assert c[k] == DocFile(discovered[i].0, discovered[i].1);
    }
  }

  /* ---------------------------------------------------------------- */
  /* The forest                                                        */
  /* ---------------------------------------------------------------- */

  /** The explorer's fixed forest, with the documents folder built from the discovered PDFs. */
  function DefaultFiles(discovered: seq<(string, string)>): (r: seq<Node>)
    ensures |r| == 6 && r[1] == BuildDocumentsFolder(discovered)
  {
    [ File("about.md", "codicon-markdown", "file-icon-md", "markdown", "about", None),
      BuildDocumentsFolder(discovered),
      Folder("projects", "codicon-folder", "folder-icon", false,
             [File("web-server.go", "codicon-file-code", "file-icon-go", "go", "projects/web-server.go", None)]),
      Folder("skills", "codicon-folder", "folder-icon", false,
             [File("backend.rs", "codicon-file-code", "file-icon-rs", "rust", "skills/backend.rs", None)]),
      File("experience.md", "codicon-markdown", "file-icon-md", "markdown", "experience", None),
      File("contacts.go", "codicon-file-code", "file-icon-go", "go", "contact", None) ]
  }

  /* ---------------------------------------------------------------- */
  /* Highlighting                                                      */
  /* ---------------------------------------------------------------- */

  /** `Array.from(items).find` by `dataset.contentId`: the first file element with the content id. */
  function FirstWithContentId(items: seq<FileItem>, contentId: string): Option<nat>
  {
    FirstIndex(items, (it: FileItem) => it.contentId == contentId, 0)
  }

  /** `Array.from(items).find` by `dataset.fileName`: the first file element with the file name. */
  function FirstWithName(items: seq<FileItem>, fileName: string): Option<nat>
  {
    FirstIndex(items, (it: FileItem) => it.fileName == fileName, 0)
  }

  /**
   * The element `highlightFileByContentId` marks: the first with the content
   * id, else, when a file name is given, the first with that name.
   */
  function HighlightTarget(items: seq<FileItem>, contentId: string, fileName: string): (r: Option<nat>)
    ensures r.Some? ==> r.value < |items|
    ensures FirstWithContentId(items, contentId).Some? ==> r == FirstWithContentId(items, contentId)
    ensures FirstWithContentId(items, contentId).None? && fileName != "" ==> r == FirstWithName(items, fileName)
    ensures FirstWithContentId(items, contentId).None? && fileName == "" ==> r.None?
  {
    var byId := FirstWithContentId(items, contentId);
    if byId.Some? then byId
    else if fileName != "" then FirstWithName(items, fileName)
    else None
  }

  /** The target is the first element carrying the content id, when there is one. */
  lemma HighlightPrefersContentId(items: seq<FileItem>, contentId: string, fileName: string, k: nat)
    requires k < |items| && items[k].contentId == contentId
    ensures var r := HighlightTarget(items, contentId, fileName);
            r.Some? && r.value <= k && items[r.value].contentId == contentId
  {
  }

  /** Nothing is marked when neither the content id nor the given name occurs. */
  lemma HighlightMissesNothing(items: seq<FileItem>, contentId: string, fileName: string)
    requires forall j :: 0 <= j < |items| ==> items[j].contentId != contentId && items[j].fileName != fileName
    ensures HighlightTarget(items, contentId, fileName).None?
  {
  }

  /* ---------------------------------------------------------------- */
  /* The explorer object                                               */
  /* ---------------------------------------------------------------- */

  /** Every rendered file element keeps its url through `url || null`: none is the empty string. */
  lemma RenderedUrlsKept(files: seq<Node>)
    ensures var items := RenderedItems(files);
            forall i :: 0 <= i < |items| ==> OrNull(items[i].url) == items[i].url
  {
    RenderedItemsAreAllFiles(files);
    FlattenIsLeaves(files, "");
  }

  /**
   * The file explorer. `items` and the initial `views` are the rendered file
   * and folder elements in document order; `marked` holds the indices of the
   * file elements with the `active` class and `activeFile` the one recorded
   * as active. The rendering never changes after the constructor, which
   * states it once; `Valid` keeps the bounds the methods rely on.
   */
  class FileExplorer {
    const files: seq<Node>
    const items: seq<FileItem>
    /** The number of rendered folder elements. */
    const folderCount: nat
    var activeFile: Option<nat>
    var marked: set<nat>
    var views: seq<FolderView>

    ghost predicate Valid()
      reads this
    {
      && |views| == folderCount
      && (activeFile.Some? ==> activeFile.value < |items|)
      && (forall i :: i in marked ==> i < |items|)
    }

    /** The elements are `render`'s output for the forest, with their initial open/closed states. */
    ghost predicate Rendered()
      reads this
    {
      items == RenderedItems(files) && views == FolderViews(RenderForest(files, 0))
    }

    /**
     * The constructor's forest, rendered, with nothing selected. The forest
     * is passed in (the application passes `DefaultFiles(discovered)`), so
     * that the rendering is proved for any forest.
     */
    constructor(forest: seq<Node>)
      ensures files == forest
      ensures items == RenderedItems(files) && views == FolderViews(RenderForest(files, 0))
      ensures views == InitialViews(FoldersOf(files))
      ensures folderCount == |views|
      ensures activeFile == None && marked == {}
      ensures Valid() && Rendered()
    {
      files := forest;
      items := RenderedItems(forest);
      views := FolderViews(RenderForest(forest, 0));
      folderCount := |FolderViews(RenderForest(forest, 0))|;
      activeFile := None;
      marked := {};
      RenderedFolderViews(forest, 0);
    }

    /** `getAllFiles`. */
    function AllFiles(): (r: seq<FileEntry>)
      ensures r == LeafEntries("", LeavesOf(files))
    {
      FlattenIsLeaves(files, "");
      FlattenForest(files, "")
    }

    /**
     * `selectFile` on file element `i`: only it is marked and recorded as
     * active; the returned record is the tab it opens (its content is then
     * loaded by the caller).
     */
    method SelectFile(i: nat) returns (t: Tab)
      requires Valid() && i < |items|
      modifies this
      ensures marked == {i} && activeFile == Some(i) && views == old(views)
      ensures t == Tab(items[i].contentId, items[i].fileName, items[i].language, items[i].contentId, OrNull(items[i].url))
      ensures Valid()
    {
      marked := {i};
      activeFile := Some(i);
      var item := items[i];
      t := Tab(item.contentId, item.fileName, item.language, item.contentId, OrNull(item.url));
    }

    /** The selection `highlightFileByContentId(contentId, fileName)` leaves: only its target is marked and active. */
    ghost predicate Highlighted(contentId: string, fileName: string)
      reads this
    {
      var t := HighlightTarget(items, contentId, fileName);
      activeFile == t && marked == (if t.Some? then {t.value} else {})
    }

    /** `highlightFileByContentId`: every mark is cleared and the target, if any, is marked and active. */
    method HighlightFileByContentId(contentId: string, fileName: string)
      requires Valid()
      modifies this
      ensures Highlighted(contentId, fileName)
      ensures views == old(views)
      ensures Valid()
    {
      marked := {};
      var target := HighlightTarget(items, contentId, fileName);
      if target.Some? {
        marked := {target.value};
      }
      activeFile := target;
    }

    /** `clearSelection`. */
    method ClearSelection()
      requires Valid()
      modifies this
      ensures marked == {} && activeFile == None && views == old(views)
      ensures Valid()
    {
      marked := {};
      activeFile := None;
    }

    /** `toggleFolder` on folder element `k`, which renders the `k`-th folder of `FoldersOf(files)`. */
    method ToggleFolder(k: nat)
      requires Valid() && k < |views|
      modifies this
      ensures views == old(views)[k := Toggle(old(views)[k])]
      ensures marked == old(marked) && activeFile == old(activeFile)
      ensures Valid()
    {
      views := views[k := Toggle(views[k])];
    }

    /** `getActiveFile`. */
    function ActiveFile(): (r: Option<FileItem>)
      requires Valid()
      reads this
      ensures r.Some? <==> activeFile.Some?
      ensures r.Some? ==> r.value == items[activeFile.value]
    {
      if activeFile.Some? then Some(items[activeFile.value]) else None
    }
  }
}
