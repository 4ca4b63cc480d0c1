// The file tree of the cloned-repository picker
// (src/components/chat/input/github/file-tree.tsx): the flat listing is
// arranged under parent paths, and the "select all" button clears or fills
// the selection atoms.

module FileTree {
  import opened Strings
  import opened RepoTree
  import opened PathSets
  import opened GitHubAtoms

  /** `path.split("/")` */
  function Segments(path: string): (r: seq<string>)
    ensures |r| >= 1
  {
    Split(path, "/")
  }

  /** `pathParts.slice(0, -1).join("/")`: every segment but the last. */
  function ParentPath(path: string): string
  {
    var parts := Segments(path);
    Join(parts[..|parts| - 1], "/")
  }

  /** A path has one segment exactly when it holds no `/`. */
  lemma OneSegmentIffNoSlash(path: string)
    ensures |Segments(path)| == 1 <==> !HasChar(path, '/')
  {
    IndexOfSound(path, "/", 0);
    if IndexOf(path, "/", 0).Some? {
      var k := IndexOf(path, "/", 0).value;
      assert path[k] == path[k..k + 1][0] == '/';
    } else {
      forall k | 0 <= k < |path| ensures path[k] != '/' {
        assert !OccursAt(path, "/", k);
        assert path[k..k + 1][0] == path[k];
      }
    }
  }

  /** The parent path, a `/` and the last segment give back a nested path. */
  lemma ParentThenLastSegment(path: string)
    requires |Segments(path)| > 1
    ensures ParentPath(path) + "/" + Segments(path)[|Segments(path)| - 1] == path
  {
    var parts := Segments(path);
    var n := |parts|;
    assert parts == parts[..n - 1] + [parts[n - 1]];
    JoinAppend(parts[..n - 1], parts[n - 1], "/");
    JoinSplit(path, "/");
  }

  /**
   * Where an item goes: `None` for the roots, `Some(p)` for the children of
   * `p`. An item with one segment is a root, and so is one whose parent path
   * is not among the listed paths.
   */
  function Placement(known: set<string>, item: FlatItem): (r: Option<string>)
    ensures r.Some? ==> r.value in known && r.value == ParentPath(item.path) && |Segments(item.path)| > 1
  {
    if |Segments(item.path)| == 1 then None
    else if ParentPath(item.path) in known then Some(ParentPath(item.path))
    else None
  }

  /** The items with the given placement, in listing order. */
  function Placed(items: seq<FlatItem>, known: set<string>, dest: Option<string>): (r: seq<FlatItem>)
    ensures |r| <= |items|
  {
    if items == [] then []
    else
      var last := items[|items| - 1];
      Placed(items[..|items| - 1], known, dest) + (if Placement(known, last) == dest then [last] else [])
  }

  /**
   * Each item lands in exactly one list: the one its placement names holds
   * it as often as the listing does, every other list not at all.
   */
  lemma {:induction false} PlacedOnce(items: seq<FlatItem>, known: set<string>, dest: Option<string>, x: FlatItem)
    ensures multiset(Placed(items, known, dest))[x]
         == if Placement(known, x) == dest then multiset(items)[x] else 0
  {
    if items != [] {
      var init, last := items[..|items| - 1], items[|items| - 1];
      PlacedOnce(init, known, dest, x);
      assert items == init + [last];
    }
  }

  /** The paths of the listing: the keys of `itemsMap`. */
  function ListedPaths(items: seq<FlatItem>): (r: set<string>)
    ensures forall p :: p in r <==> exists i :: 0 <= i < |items| && items[i].path == p
  {
    set i | 0 <= i < |items| :: items[i].path
  }

  /** `getChildren`: the children recorded for a path, or none for a path never recorded. */
  function GetChildren(childrenMap: map<string, seq<FlatItem>>, path: string): (r: seq<FlatItem>)
    ensures path !in childrenMap ==> r == []
  {
    if path in childrenMap then childrenMap[path] else []
  }

  /**
   * `organizeItemsHierarchically`: the roots are the items placed at the top
   * and the children of every path are the items placed under it, both in
   * listing order; only paths that received a child are recorded.
   */
  method OrganizeItemsHierarchically(items: seq<FlatItem>)
    returns (rootItems: seq<FlatItem>, childrenMap: map<string, seq<FlatItem>>)
    ensures rootItems == Placed(items, ListedPaths(items), None)
    ensures forall p :: GetChildren(childrenMap, p) == Placed(items, ListedPaths(items), Some(p))
    ensures forall p :: p in childrenMap ==> childrenMap[p] != []
  {
    var itemsMap := BuildItemsMap(items);
    ghost var known := ListedPaths(items);
    rootItems, childrenMap := [], map[];
    var i := 0;
    while i < |items|
      invariant 0 <= i <= |items|
      invariant OrganizedPrefix(items, known, i, rootItems, childrenMap)
    {
      ghost var roots0, children0 := rootItems, childrenMap;
      rootItems, childrenMap := PlaceItem(itemsMap, rootItems, childrenMap, items[i]);
      OrganizedStep(items, known, i, roots0, children0, rootItems, childrenMap);
      i := i + 1;
    }
    assert items[..i] == items;
  }

  /** The second loop's invariant: the first `i` items are placed. */
  ghost predicate OrganizedPrefix(items: seq<FlatItem>, known: set<string>, i: nat,
                                  rootItems: seq<FlatItem>, childrenMap: map<string, seq<FlatItem>>)
    requires i <= |items|
  {
    && rootItems == Placed(items[..i], known, None)
    && (forall p :: GetChildren(childrenMap, p) == Placed(items[..i], known, Some(p)))
    && (forall p :: p in childrenMap ==> childrenMap[p] != [])
  }

  lemma OrganizedStep(items: seq<FlatItem>, known: set<string>, i: nat,
                      roots0: seq<FlatItem>, children0: map<string, seq<FlatItem>>,
                      roots1: seq<FlatItem>, children1: map<string, seq<FlatItem>>)
    requires i < |items| && OrganizedPrefix(items, known, i, roots0, children0)
    requires roots1 == roots0 + (if Placement(known, items[i]) == None then [items[i]] else [])
    requires forall p :: GetChildren(children1, p)
                      == GetChildren(children0, p) + (if Placement(known, items[i]) == Some(p) then [items[i]] else [])
    requires forall p :: p in children1 ==> children1[p] != []
    ensures OrganizedPrefix(items, known, i + 1, roots1, children1)
  {
    PlacedStep(items, i, known, None);
    forall p ensures GetChildren(children1, p) == Placed(items[..i + 1], known, Some(p)) {
      PlacedStep(items, i, known, Some(p));
    }
  }

  /** The first loop of `organizeItemsHierarchically`: every item under its path, the last one winning. */
  method BuildItemsMap(items: seq<FlatItem>) returns (itemsMap: map<string, FlatItem>)
    ensures itemsMap.Keys == ListedPaths(items)
    ensures forall p :: p in itemsMap ==> itemsMap[p].path == p
  {
    itemsMap := map[];
    var i := 0;
    while i < |items|
      invariant 0 <= i <= |items|
      invariant itemsMap.Keys == ListedPaths(items[..i])
      invariant forall p :: p in itemsMap ==> itemsMap[p].path == p
    {
      itemsMap := itemsMap[items[i].path := items[i]];
      assert items[..i + 1] == items[..i] + [items[i]];
      i := i + 1;
    }
    assert items[..i] == items;
  }

  /** Taking one more item of the listing adds it to the end of the list its placement names. */
  lemma PlacedStep(items: seq<FlatItem>, i: nat, known: set<string>, dest: Option<string>)
    requires i < |items|
    ensures Placed(items[..i + 1], known, dest)
         == Placed(items[..i], known, dest) + (if Placement(known, items[i]) == dest then [items[i]] else [])
  {
    assert items[..i + 1][..i] == items[..i];
  }

  /** One round of the second loop: the item goes to the roots or to its parent's children. */
  method PlaceItem(itemsMap: map<string, FlatItem>, rootItems0: seq<FlatItem>,
                   childrenMap0: map<string, seq<FlatItem>>, item: FlatItem)
    returns (rootItems: seq<FlatItem>, childrenMap: map<string, seq<FlatItem>>)
    requires forall p :: p in childrenMap0 ==> childrenMap0[p] != []
    ensures rootItems == rootItems0 + (if Placement(itemsMap.Keys, item) == None then [item] else [])
    ensures forall p :: GetChildren(childrenMap, p)
                     == GetChildren(childrenMap0, p) + (if Placement(itemsMap.Keys, item) == Some(p) then [item] else [])
    ensures forall p :: p in childrenMap ==> childrenMap[p] != []
  {
    rootItems, childrenMap := rootItems0, childrenMap0;
    var pathParts := Segments(item.path);
    if |pathParts| == 1 {
      rootItems := rootItems + [item];
    } else {
      var parentPath := Join(pathParts[..|pathParts| - 1], "/");
      if parentPath in itemsMap {
        var siblings := GetChildren(childrenMap, parentPath);
        childrenMap := childrenMap[parentPath := siblings + [item]];
      } else {
        rootItems := rootItems + [item];
      }
    }
  }

  /** The paths of the listed items of one type, in order: the `filter` + `map` of `handleSelectAll`. */
  function PathsOfType(items: seq<FlatItem>, t: ItemType): (r: seq<string>)
    ensures |r| <= |items|
  {
    if items == [] then []
    else (if items[0].itemType == t then [items[0].path] else []) + PathsOfType(items[1..], t)
  }

  lemma {:induction false} PathsOfTypeMembers(items: seq<FlatItem>, t: ItemType, p: string)
    ensures p in PathsOfType(items, t) <==> exists i :: 0 <= i < |items| && items[i].itemType == t && items[i].path == p
  {
    if items != [] {
      PathsOfTypeMembers(items[1..], t, p);
      if exists i :: 0 <= i < |items| && items[i].itemType == t && items[i].path == p {
        var i :| 0 <= i < |items| && items[i].itemType == t && items[i].path == p;
        if i > 0 {
          assert items[1..][i - 1] == items[i];
        }
      }
      if exists i :: 0 <= i < |items[1..]| && items[1..][i].itemType == t && items[1..][i].path == p {
        var i :| 0 <= i < |items[1..]| && items[1..][i].itemType == t && items[1..][i].path == p;
        assert items[i + 1] == items[1..][i];
      }
    }
  }

  /**
   * `handleSelectAll`: with anything selected the selection is cleared; with
   * nothing selected and usage at the limit nothing changes; otherwise every
   * listed file and folder is selected, unless the files' tokens exceed the
   * maximum. `limitError` tells whether the token-limit error is shown.
   */
  method HandleSelectAll(atoms: SelectionAtoms) returns (limitError: bool)
    requires atoms.Valid()
    modifies atoms
    ensures atoms.Valid()
    ensures atoms.combinedItems == old(atoms.combinedItems) && atoms.maxTokens == old(atoms.maxTokens)
    ensures old(atoms.TotalSelectedCount()) > 0 ==>
              !limitError && atoms.selectedFiles == [] && atoms.selectedFolders == []
    ensures old(atoms.TotalSelectedCount()) == 0 && old(atoms.IsAtTokenLimit()) ==>
              limitError && atoms.selectedFiles == old(atoms.selectedFiles)
              && atoms.selectedFolders == old(atoms.selectedFolders)
    ensures old(atoms.TotalSelectedCount()) == 0 && !old(atoms.IsAtTokenLimit()) ==>
              var files := PathsOfType(atoms.combinedItems, File);
              && (limitError <==> SumTokens(atoms.combinedItems, files) > atoms.maxTokens)
              && (!limitError ==> atoms.selectedFiles == Dedup(files)
                                  && atoms.selectedFolders == Dedup(PathsOfType(atoms.combinedItems, Dir)))
              && (limitError ==> atoms.selectedFiles == [] && atoms.selectedFolders == [])
    ensures old(atoms.TotalSelectedCount()) == 0 && !limitError ==> atoms.Usage() <= atoms.maxTokens
  {
    var totalSelectedCount := atoms.TotalSelectedCount();
    if totalSelectedCount > 0 {
      atoms.ClearAllSelections();
      return false;
    }
    var isAtLimit := atoms.IsAtTokenLimit();
    if isAtLimit {
      return true;
    }
    var allFilePaths := PathsOfType(atoms.combinedItems, File);
    var allFolderPaths := PathsOfType(atoms.combinedItems, Dir);
    var success := atoms.SelectAllFiles(allFilePaths, allFolderPaths);
    limitError := !success;
  }
}
