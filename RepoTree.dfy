// The repository tree of the GitHub picker (src/store/githubStore.ts and the
// hooks that walk it): items whose directories carry their loaded children.
// Every walk in the source visits an item, then its children, then its next
// sibling, so each operation is specified against the pre-order list of the
// forest.

module RepoTree {
  import opened Strings

  datatype ItemType = File | Dir

  /**
   * A file or directory of the repository. Optional fields of the source are
   * given their falsy value when absent: `children` is `[]`, `tokens` and
   * `size` are 0, `content` is "", and the flags are false. Every reader of
   * these fields tests them for truthiness only, so the two coincide.
   */
  datatype RepoItem = RepoItem(
    name: string,
    path: string,
    itemType: ItemType,
    size: nat,
    tokens: nat,
    content: string,
    children: seq<RepoItem>,
    expanded: bool,
    depth: nat,
    isLoading: bool,
    childrenLoaded: bool)

  /** The forest listed item by item: each item, then its descendants, then its next sibling. */
  function PreOrder(items: seq<RepoItem>): (r: seq<RepoItem>)
    ensures |r| >= |items|
  {
    if items == [] then []
    else [items[0]] + PreOrder(items[0].children) + PreOrder(items[1..])
  }

  lemma {:induction false} PreOrderAppend(a: seq<RepoItem>, b: seq<RepoItem>)
    ensures PreOrder(a + b) == PreOrder(a) + PreOrder(b)
  {
    if a == [] {
      assert a + b == b;
    } else {
      assert (a + b)[0] == a[0];
      assert (a + b)[1..] == a[1..] + b;
      PreOrderAppend(a[1..], b);
    }
  }

  /** Walking one more sibling appends it and its descendants. */
  lemma PreOrderStep(items: seq<RepoItem>, i: nat)
    requires i < |items|
    ensures PreOrder(items[..i + 1]) == PreOrder(items[..i]) + [items[i]] + PreOrder(items[i].children)
  {
    assert items[..i + 1] == items[..i] + [items[i]];
    PreOrderAppend(items[..i], [items[i]]);
    assert [items[i]][1..] == [];
  }

  function Paths(s: seq<RepoItem>): (r: seq<string>)
    ensures |r| == |s| && forall i :: 0 <= i < |s| ==> r[i] == s[i].path
  {
    if s == [] then [] else [s[0].path] + Paths(s[1..])
  }

  lemma PathsAppend(a: seq<RepoItem>, b: seq<RepoItem>)
    ensures Paths(a + b) == Paths(a) + Paths(b)
  {
    assert forall i :: 0 <= i < |a + b| ==> Paths(a + b)[i] == (Paths(a) + Paths(b))[i];
  }

  /** The first entry of a flat list with the given path: the reference for every tree search. */
  function FirstWithPath(s: seq<RepoItem>, path: string): (r: Option<RepoItem>)
    ensures r.Some? ==> exists i :: 0 <= i < |s| && s[i] == r.value && s[i].path == path
                          && forall j :: 0 <= j < i ==> s[j].path != path
    ensures r.None? ==> forall j :: 0 <= j < |s| ==> s[j].path != path
  {
    if s == [] then None
    else if s[0].path == path then Some(s[0])
    else
      var r := FirstWithPath(s[1..], path);
      if r.Some? then
        assert forall j :: 1 <= j < |s| ==> s[j] == s[1..][j - 1];
        r
      else r
  }

  lemma {:induction false} FirstWithPathAppend(a: seq<RepoItem>, b: seq<RepoItem>, path: string)
    ensures FirstWithPath(a + b, path)
         == if FirstWithPath(a, path).Some? then FirstWithPath(a, path) else FirstWithPath(b, path)
  {
    if a == [] {
      assert a + b == b;
    } else {
      assert (a + b)[0] == a[0];
      assert (a + b)[1..] == a[1..] + b;
      FirstWithPathAppend(a[1..], b, path);
    }
  }

  /** `findItemInTree`: the first item in pre-order whose path matches, or none. */
  function FindItemInTree(items: seq<RepoItem>, path: string): (r: Option<RepoItem>)
    ensures r.Some? ==> r.value.path == path
  {
    if items == [] then None
    else if items[0].path == path then Some(items[0])
    else
      match FindItemInTree(items[0].children, path)
      case Some(found) => Some(found)
      case None => FindItemInTree(items[1..], path)
  }

  /** The search finds exactly the first pre-order match, and nothing when no item has the path. */
  lemma {:induction false} FindIsPreOrderFirst(items: seq<RepoItem>, path: string)
    ensures FindItemInTree(items, path) == FirstWithPath(PreOrder(items), path)
  {
    if items != [] {
      var head := [items[0]] + PreOrder(items[0].children);
      assert PreOrder(items) == head + PreOrder(items[1..]);
      FirstWithPathAppend(head, PreOrder(items[1..]), path);
      FirstWithPathAppend([items[0]], PreOrder(items[0].children), path);
      assert ([items[0]] + PreOrder(items[0].children))[0] == items[0];
      FindIsPreOrderFirst(items[0].children, path);
      FindIsPreOrderFirst(items[1..], path);
    }
  }

  /** A path occurs in the tree exactly when the search finds it. */
  lemma FindIffPresent(items: seq<RepoItem>, path: string)
    ensures FindItemInTree(items, path).Some? <==> path in Paths(PreOrder(items))
  {
    FindIsPreOrderFirst(items, path);
    var s := PreOrder(items);
    if path in Paths(s) {
      var k :| 0 <= k < |s| && Paths(s)[k] == path;
      assert s[k].path == path;
    }
  }

  /** `getAllChildPaths`: the paths of every descendant, in pre-order, without the item itself. */
  method GetAllChildPaths(item: RepoItem) returns (paths: seq<string>)
    ensures paths == Paths(PreOrder(item.children))
    decreases item
  {
    paths := [];
    var i := 0;
    while i < |item.children|
      invariant 0 <= i <= |item.children|
      invariant paths == Paths(PreOrder(item.children[..i]))
    {
      var child := item.children[i];
      var sub := GetAllChildPaths(child);
      ghost var before := paths;
      paths := paths + [child.path] + sub;
      ChildPathsStep(item.children, i, before, paths);
      i := i + 1;
    }
    assert item.children[..i] == item.children;
  }

  lemma ChildPathsStep(children: seq<RepoItem>, i: nat, before: seq<string>, after: seq<string>)
    requires i < |children|
    requires before == Paths(PreOrder(children[..i]))
    requires after == before + [children[i].path] + Paths(PreOrder(children[i].children))
    ensures after == Paths(PreOrder(children[..i + 1]))
  {
    var done, child := PreOrder(children[..i]), children[i];
    var below := PreOrder(child.children);
    PreOrderStep(children, i);
    PathsAppend(done + [child], below);
    PathsAppend(done, [child]);
    assert Paths([child]) == [child.path];
    assert Paths(done + [child] + below) == Paths(done) + [child.path] + Paths(below);
  }

  /** The item's own path followed by its descendants' is its subtree in pre-order. */
  lemma SubtreePaths(item: RepoItem)
    ensures Paths(PreOrder([item])) == [item.path] + Paths(PreOrder(item.children))
  {
    assert [item][1..] == [];
    assert PreOrder([item]) == [item] + PreOrder(item.children);
    PathsAppend([item], PreOrder(item.children));
  }

  /** The three updaters the store passes to `updateItemInTree`. */
  datatype Updater =
    | NewTokens(tokens: nat)
    | NewChildren(children: seq<RepoItem>)
    | NewLoading(loading: bool)

  function Apply(u: Updater, item: RepoItem): (r: RepoItem)
    ensures r.path == item.path && r.itemType == item.itemType
    ensures !u.NewChildren? ==> r.children == item.children
  {
    match u
    case NewTokens(t) => item.(tokens := t)
    case NewChildren(cs) => item.(children := cs, childrenLoaded := true, expanded := true)
    case NewLoading(b) => item.(isLoading := b)
  }

  /**
   * `updateItemInTree`: every item whose path matches is replaced by the
   * updated one and its subtree is not searched further; every other item
   * keeps its place with its children updated the same way.
   */
  function UpdateItemInTree(items: seq<RepoItem>, path: string, u: Updater): (r: seq<RepoItem>)
    ensures |r| == |items|
    ensures forall i :: 0 <= i < |items| ==> r[i].path == items[i].path && r[i].itemType == items[i].itemType
  {
    if items == [] then []
    else
      var item := items[0];
      var updated :=
        if item.path == path then Apply(u, item)
        else item.(children := UpdateItemInTree(item.children, path, u));
      [updated] + UpdateItemInTree(items[1..], path, u)
  }

  /** A route into the forest: an index among the items, then a route into that item's children, if any. */
  predicate IsRoute(items: seq<RepoItem>, route: seq<nat>)
    decreases |route|
  {
    && |route| >= 1 && route[0] < |items|
    && (|route| == 1 || IsRoute(items[route[0]].children, route[1..]))
  }

  /** The item a route leads to. */
  function At(items: seq<RepoItem>, route: seq<nat>): RepoItem
    requires IsRoute(items, route)
    decreases |route|
  {
    if |route| == 1 then items[route[0]] else At(items[route[0]].children, route[1..])
  }

  /** No item passed on the way down the route (the target excluded) has the path. */
  predicate Unshadowed(items: seq<RepoItem>, route: seq<nat>, path: string)
    requires IsRoute(items, route)
    decreases |route|
  {
    |route| == 1 || (items[route[0]].path != path && Unshadowed(items[route[0]].children, route[1..], path))
  }

  /** The item at index `j` of an updated list. */
  lemma {:induction false} UpdateItemAt(items: seq<RepoItem>, path: string, u: Updater, j: nat)
    requires j < |items|
    ensures UpdateItemInTree(items, path, u)[j]
         == if items[j].path == path then Apply(u, items[j])
            else items[j].(children := UpdateItemInTree(items[j].children, path, u))
  {
    if j > 0 {
      UpdateItemAt(items[1..], path, u, j - 1);
    }
  }

  /**
   * Item by item, at every position the search reaches: the updated tree
   * has an item there too; a matching item becomes exactly the updater's
   * result (its subtree is not searched); any other item keeps every field
   * but its children, which are updated in turn.
   */
  lemma {:induction false} UpdateAtRoute(items: seq<RepoItem>, route: seq<nat>, path: string, u: Updater)
    requires IsRoute(items, route) && Unshadowed(items, route, path)
    ensures var r := UpdateItemInTree(items, path, u);
      && IsRoute(r, route) && Unshadowed(r, route, path)
      && var before := At(items, route);
         var after := At(r, route);
         if before.path == path then after == Apply(u, before)
         else after.(children := before.children) == before
    decreases |route|
  {
    var j := route[0];
    UpdateItemAt(items, path, u, j);
    if |route| > 1 {
      UpdateAtRoute(items[j].children, route[1..], path, u);
    }
  }

  /** Every position the search reaches in the updated tree was there before: the update adds no item outside a match. */
  lemma {:induction false} UpdateRoutesExisted(items: seq<RepoItem>, route: seq<nat>, path: string, u: Updater)
    requires IsRoute(UpdateItemInTree(items, path, u), route) && Unshadowed(UpdateItemInTree(items, path, u), route, path)
    ensures IsRoute(items, route) && Unshadowed(items, route, path)
    decreases |route|
  {
    var j := route[0];
    UpdateItemAt(items, path, u, j);
    if |route| > 1 {
      UpdateRoutesExisted(items[j].children, route[1..], path, u);
    }
  }

  /** Updating a path the search does not find leaves the tree as it was. */
  lemma {:induction false} UpdateMissingIsIdentity(items: seq<RepoItem>, path: string, u: Updater)
    requires FindItemInTree(items, path) == None
    ensures UpdateItemInTree(items, path, u) == items
  {
    if items != [] {
      UpdateMissingIsIdentity(items[0].children, path, u);
      UpdateMissingIsIdentity(items[1..], path, u);
      var r := UpdateItemInTree(items, path, u);
      assert r[0] == items[0];
      assert r[1..] == items[1..];
      assert r == [r[0]] + r[1..];
    }
  }

  /** After an update, looking the path up finds the updated version of what it found before. */
  lemma {:induction false} UpdateThenFind(items: seq<RepoItem>, path: string, u: Updater)
    ensures FindItemInTree(UpdateItemInTree(items, path, u), path)
         == match FindItemInTree(items, path)
            case Some(x) => Some(Apply(u, x))
            case None => None
  {
    if items != [] && items[0].path != path {
      UpdateThenFind(items[0].children, path, u);
      UpdateThenFind(items[1..], path, u);
      var r := UpdateItemInTree(items, path, u);
      assert r[0] == items[0].(children := UpdateItemInTree(items[0].children, path, u));
      assert r[1..] == UpdateItemInTree(items[1..], path, u);
    }
  }

  /** An updater that leaves children alone keeps every path of the tree, in order. */
  lemma {:induction false} UpdateKeepsPaths(items: seq<RepoItem>, path: string, u: Updater)
    requires !u.NewChildren?
    ensures Paths(PreOrder(UpdateItemInTree(items, path, u))) == Paths(PreOrder(items))
  {
    if items != [] {
      var r := UpdateItemInTree(items, path, u);
      UpdateKeepsPaths(items[0].children, path, u);
      UpdateKeepsPaths(items[1..], path, u);
      assert r[1..] == UpdateItemInTree(items[1..], path, u);
      assert PreOrder(r) == [r[0]] + PreOrder(r[0].children) + PreOrder(r[1..]);
      assert PreOrder(items) == [items[0]] + PreOrder(items[0].children) + PreOrder(items[1..]);
      PathsAppend([r[0]] + PreOrder(r[0].children), PreOrder(r[1..]));
      PathsAppend([r[0]], PreOrder(r[0].children));
      PathsAppend([items[0]] + PreOrder(items[0].children), PreOrder(items[1..]));
      PathsAppend([items[0]], PreOrder(items[0].children));
    }
  }

  /** How many entries of a flat list are of the given type. */
  function CountOf(s: seq<RepoItem>, t: ItemType): (r: nat)
    ensures r <= |s|
  {
    if s == [] then 0 else (if s[0].itemType == t then 1 else 0) + CountOf(s[1..], t)
  }

  lemma {:induction false} CountOfAppend(a: seq<RepoItem>, b: seq<RepoItem>, t: ItemType)
    ensures CountOf(a + b, t) == CountOf(a, t) + CountOf(b, t)
  {
    if a == [] {
      assert a + b == b;
    } else {
      assert (a + b)[0] == a[0];
      assert (a + b)[1..] == a[1..] + b;
      CountOfAppend(a[1..], b, t);
    }
  }

  /** Every entry is a file or a directory, so the two counts add up to the length. */
  lemma {:induction false} FilesPlusFolders(s: seq<RepoItem>)
    ensures CountOf(s, File) + CountOf(s, Dir) == |s|
  {
    if s != [] {
      FilesPlusFolders(s[1..]);
    }
  }

  /** One item of the loop: itself when of the kind counted, then what its children hold. */
  lemma CountStep(items: seq<RepoItem>, i: nat, i': nat, before: nat, below: nat, after: nat, kind: ItemType)
    requires i < |items| && i' == i + 1
    requires before == CountOf(PreOrder(items[..i]), kind)
    requires below == CountOf(PreOrder(items[i].children), kind)
    requires after == before + (if items[i].itemType == kind then 1 else 0) + below
    ensures after == CountOf(PreOrder(items[..i']), kind)
  {
    PreOrderStep(items, i);
    CountOfAppend(PreOrder(items[..i]) + [items[i]], PreOrder(items[i].children), kind);
    CountOfAppend(PreOrder(items[..i]), [items[i]], kind);
  }

  /**
   * `countItemsRecursively` (githubStore.ts and gh-text.ts): the files and the
   * folders of the whole tree, which together are all of its items.
   */
  method CountItemsRecursively(items: seq<RepoItem>) returns (files: nat, folders: nat)
    ensures files == CountOf(PreOrder(items), File)
    ensures folders == CountOf(PreOrder(items), Dir)
    ensures files + folders == |PreOrder(items)|
    decreases items
  {
    files, folders := 0, 0;
    var i := 0;
    while i < |items|
      invariant 0 <= i <= |items|
      invariant files == CountOf(PreOrder(items[..i]), File)
      invariant folders == CountOf(PreOrder(items[..i]), Dir)
    {
      ghost var files0, folders0 := files, folders;
      var item := items[i];
      if item.itemType == File {
        files := files + 1;
      } else {
        folders := folders + 1;
      }
      var childFiles, childFolders := CountItemsRecursively(item.children);
      files := files + childFiles;
      folders := folders + childFolders;
      ghost var i0 := i;
      i := i + 1;
      CountStep(items, i0, i, files0, childFiles, files, File);
      CountStep(items, i0, i, folders0, childFolders, folders, Dir);
    }
    CountDone(items, files, folders);
  }

  lemma CountDone(items: seq<RepoItem>, files: nat, folders: nat)
    requires files == CountOf(PreOrder(items[..|items|]), File)
    requires folders == CountOf(PreOrder(items[..|items|]), Dir)
    ensures files == CountOf(PreOrder(items), File)
    ensures folders == CountOf(PreOrder(items), Dir)
    ensures files + folders == |PreOrder(items)|
  {
    assert items[..|items|] == items;
    FilesPlusFolders(PreOrder(items));
  }
}
