// Walks over the repository tree done by the picker's hooks and by the
// document export: every file (src/hooks/use-github.ts), the rows shown on
// screen (use-github.ts and github-dialog.tsx), and the selected items
// looked up by path (src/components/chat/input/github/gh-text.ts).

module RepoViews {
  import opened RepoTree

  /** The files of a flat list, in order. */
  function FilesOf(s: seq<RepoItem>): (r: seq<RepoItem>)
    ensures |r| == CountOf(s, File)
  {
    if s == [] then []
    else (if s[0].itemType == File then [s[0]] else []) + FilesOf(s[1..])
  }

  /** The files kept are exactly the entries that are files. */
  lemma {:induction false} FilesOfMembers(s: seq<RepoItem>, x: RepoItem)
    ensures x in FilesOf(s) <==> x in s && x.itemType == File
  {
    if s != [] {
      FilesOfMembers(s[1..], x);
      assert s == [s[0]] + s[1..];
    }
  }

  lemma {:induction false} FilesOfAppend(a: seq<RepoItem>, b: seq<RepoItem>)
    ensures FilesOf(a + b) == FilesOf(a) + FilesOf(b)
  {
    if a == [] {
      assert a + b == b;
    } else {
      assert (a + b)[0] == a[0];
      assert (a + b)[1..] == a[1..] + b;
      FilesOfAppend(a[1..], b);
    }
  }

  /** The files met while walking one more sibling: it, if a file, then those below it. */
  lemma FilesOfStep(items: seq<RepoItem>, i: nat)
    requires i < |items|
    ensures FilesOf(PreOrder(items[..i + 1]))
         == FilesOf(PreOrder(items[..i])) + (if items[i].itemType == File then [items[i]] else [])
            + FilesOf(PreOrder(items[i].children))
  {
    PreOrderStep(items, i);
    FilesOfAppend(PreOrder(items[..i]) + [items[i]], PreOrder(items[i].children));
    FilesOfAppend(PreOrder(items[..i]), [items[i]]);
    assert FilesOf([items[i]]) == (if items[i].itemType == File then [items[i]] else []) + FilesOf([]);
  }

  lemma GetAllFilesStep(items: seq<RepoItem>, i: nat, before: seq<RepoItem>, after: seq<RepoItem>)
    requires i < |items|
    requires before == FilesOf(PreOrder(items[..i]))
    requires after == before + (if items[i].itemType == File then [items[i]] else [])
                      + FilesOf(PreOrder(items[i].children))
    ensures after == FilesOf(PreOrder(items[..i + 1]))
  {
    FilesOfStep(items, i);
  }

  /** `getAllFiles`: every file of the tree, nested ones included, in pre-order. */
  method GetAllFiles(items: seq<RepoItem>) returns (files: seq<RepoItem>)
    ensures files == FilesOf(PreOrder(items))
    decreases items, 0
  {
    files := [];
    var i := 0;
    while i < |items|
      invariant 0 <= i <= |items|
      invariant files == FilesOf(PreOrder(items[..i]))
    {
      ghost var before := files;
      files := FilesFrom(files, items[i]);
      GetAllFilesStep(items, i, before, files);
      i := i + 1;
    }
    assert items[..i] == items;
  }

  /** One round of `getAllFiles`: the item when it is a file, then the files below it. */
  method FilesFrom(files0: seq<RepoItem>, item: RepoItem) returns (files: seq<RepoItem>)
    ensures files == files0 + (if item.itemType == File then [item] else []) + FilesOf(PreOrder(item.children))
    decreases item.children, 1
  {
    files := files0;
    if item.itemType == File {
      files := files + [item];
    }
    var nested := GetAllFiles(item.children);
    files := files + nested;
  }

  /** The rows on screen: each item, followed by the rows of its children when it is expanded. */
  function Visible(items: seq<RepoItem>): (r: seq<RepoItem>)
    ensures |r| >= |items|
  {
    if items == [] then []
    else [items[0]] + (if items[0].expanded then Visible(items[0].children) else []) + Visible(items[1..])
  }

  lemma {:induction false} VisibleAppend(a: seq<RepoItem>, b: seq<RepoItem>)
    ensures Visible(a + b) == Visible(a) + Visible(b)
  {
    if a == [] {
      assert a + b == b;
    } else {
      assert (a + b)[0] == a[0];
      assert (a + b)[1..] == a[1..] + b;
      VisibleAppend(a[1..], b);
    }
  }

  /** The rows of one more sibling: it, then its children's rows when it is expanded. */
  lemma VisibleStep(items: seq<RepoItem>, i: nat)
    requires i < |items|
    ensures Visible(items[..i + 1])
         == Visible(items[..i]) + [items[i]]
            + (if items[i].expanded && items[i].children != [] then Visible(items[i].children) else [])
  {
    assert items[..i + 1] == items[..i] + [items[i]];
    VisibleAppend(items[..i], [items[i]]);
    assert [items[i]][1..] == [];
  }

  /**
   * The recursive `addItems` of `flattenedItems`: it pushes onto the result it
   * shares with its caller, so it is given that result and returns it extended.
   */
  method AddItems(result0: seq<RepoItem>, itemList: seq<RepoItem>) returns (result: seq<RepoItem>)
    ensures result == result0 + Visible(itemList)
    decreases itemList, 0
  {
    result := result0;
    var i := 0;
    while i < |itemList|
      invariant 0 <= i <= |itemList|
      invariant result == result0 + Visible(itemList[..i])
    {
      ghost var before := result;
      result := AddItem(result, itemList[i]);
      AddItemsStep(result0, itemList, i, before, result);
      i := i + 1;
    }
    assert itemList[..i] == itemList;
  }

  lemma AddItemsStep(result0: seq<RepoItem>, itemList: seq<RepoItem>, i: nat, before: seq<RepoItem>, after: seq<RepoItem>)
    requires i < |itemList|
    requires before == result0 + Visible(itemList[..i])
    requires after == before + [itemList[i]] + (if itemList[i].expanded && itemList[i].children != [] then Visible(itemList[i].children) else [])
    ensures after == result0 + Visible(itemList[..i + 1])
  {
    VisibleStep(itemList, i);
  }

  /** One round of `addItems`: push the item, then the rows below it when it is expanded. */
  method AddItem(result0: seq<RepoItem>, item: RepoItem) returns (result: seq<RepoItem>)
    ensures result == result0 + [item] + (if item.expanded && item.children != [] then Visible(item.children) else [])
    decreases item.children, 1
  {
    result := result0 + [item];
    if item.expanded && item.children != [] {
      result := AddItems(result, item.children);
    }
  }

  /** `flattenedItems` (use-github.ts and github-dialog.tsx): the rows of the whole tree. */
  method FlattenedItems(items: seq<RepoItem>) returns (result: seq<RepoItem>)
    ensures result == Visible(items)
  {
    result := AddItems([], items);
  }

  /** Every item and every item below it is expanded. */
  predicate AllExpanded(items: seq<RepoItem>) {
    items == [] || (items[0].expanded && AllExpanded(items[0].children) && AllExpanded(items[1..]))
  }

  /** With everything expanded the rows are the whole tree in pre-order. */
  lemma {:induction false} VisibleAllExpanded(items: seq<RepoItem>)
    requires AllExpanded(items)
    ensures Visible(items) == PreOrder(items)
  {
    if items != [] {
      VisibleAllExpanded(items[0].children);
      VisibleAllExpanded(items[1..]);
    }
  }

  /** With nothing expanded the rows are the top-level items only. */
  lemma {:induction false} VisibleCollapsed(items: seq<RepoItem>)
    requires forall i :: 0 <= i < |items| ==> !items[i].expanded
    ensures Visible(items) == items
  {
    if items != [] {
      VisibleCollapsed(items[1..]);
      assert items == [items[0]] + items[1..];
    }
  }

  /** Every row is an item of the tree. */
  lemma {:induction false} VisibleInTree(items: seq<RepoItem>, x: RepoItem)
    requires x in Visible(items)
    ensures x in PreOrder(items)
  {
    var head := [items[0]];
    var below := if items[0].expanded then Visible(items[0].children) else [];
    assert Visible(items) == head + below + Visible(items[1..]);
    if x in below {
      VisibleInTree(items[0].children, x);
    } else if x in Visible(items[1..]) {
      VisibleInTree(items[1..], x);
    }
  }

  /** The entries of a flat list whose path is one of the targets, in order. */
  function WithPathIn(s: seq<RepoItem>, targets: set<string>): (r: seq<RepoItem>)
    ensures |r| <= |s|
  {
    if s == [] then []
    else (if s[0].path in targets then [s[0]] else []) + WithPathIn(s[1..], targets)
  }

  lemma {:induction false} WithPathInMembers(s: seq<RepoItem>, targets: set<string>, x: RepoItem)
    ensures x in WithPathIn(s, targets) <==> x in s && x.path in targets
  {
    if s != [] {
      WithPathInMembers(s[1..], targets, x);
      assert s == [s[0]] + s[1..];
    }
  }

  lemma {:induction false} WithPathInAppend(a: seq<RepoItem>, b: seq<RepoItem>, targets: set<string>)
    ensures WithPathIn(a + b, targets) == WithPathIn(a, targets) + WithPathIn(b, targets)
  {
    if a == [] {
      assert a + b == b;
    } else {
      assert (a + b)[0] == a[0];
      assert (a + b)[1..] == a[1..] + b;
      var head := if a[0].path in targets then [a[0]] else [];
      WithPathInAppend(a[1..], b, targets);
      assert WithPathIn(a + b, targets) == head + WithPathIn(a[1..] + b, targets);
      assert WithPathIn(a, targets) == head + WithPathIn(a[1..], targets);
    }
  }

  /** The matches met while walking one more sibling: it, if it matches, then those below it. */
  lemma WithPathInStep(items: seq<RepoItem>, i: nat, targets: set<string>)
    requires i < |items|
    ensures WithPathIn(PreOrder(items[..i + 1]), targets)
         == WithPathIn(PreOrder(items[..i]), targets) + (if items[i].path in targets then [items[i]] else [])
            + WithPathIn(PreOrder(items[i].children), targets)
  {
    PreOrderStep(items, i);
    WithPathInAppend(PreOrder(items[..i]) + [items[i]], PreOrder(items[i].children), targets);
    WithPathInAppend(PreOrder(items[..i]), [items[i]], targets);
    assert WithPathIn([items[i]], targets) == (if items[i].path in targets then [items[i]] else []) + WithPathIn([], targets);
  }

  /** The recursive `searchItems` of `findAllItemsInTree`, pushing onto the shared result. */
  method SearchItems(targets: set<string>, found0: seq<RepoItem>, itemList: seq<RepoItem>)
    returns (found: seq<RepoItem>)
    ensures found == found0 + WithPathIn(PreOrder(itemList), targets)
    decreases itemList, 0
  {
    found := found0;
    var i := 0;
    while i < |itemList|
      invariant 0 <= i <= |itemList|
      invariant found == found0 + WithPathIn(PreOrder(itemList[..i]), targets)
    {
      ghost var before := found;
      found := SearchItem(targets, found, itemList[i]);
      SearchItemsStep(targets, found0, itemList, i, before, found);
      i := i + 1;
    }
    assert itemList[..i] == itemList;
  }

  lemma SearchItemsStep(targets: set<string>, found0: seq<RepoItem>, itemList: seq<RepoItem>, i: nat,
                        before: seq<RepoItem>, after: seq<RepoItem>)
    requires i < |itemList|
    requires before == found0 + WithPathIn(PreOrder(itemList[..i]), targets)
    requires after == before + (if itemList[i].path in targets then [itemList[i]] else [])
                      + WithPathIn(PreOrder(itemList[i].children), targets)
    ensures after == found0 + WithPathIn(PreOrder(itemList[..i + 1]), targets)
  {
    WithPathInStep(itemList, i, targets);
  }

  /** One round of `searchItems`: push the item when it matches, then search below it. */
  method SearchItem(targets: set<string>, found0: seq<RepoItem>, item: RepoItem) returns (found: seq<RepoItem>)
    ensures found == found0 + (if item.path in targets then [item] else [])
                     + WithPathIn(PreOrder(item.children), targets)
    decreases item.children, 1
  {
    found := found0;
    if item.path in targets {
      found := found + [item];
    }
    if item.children != [] {
      found := SearchItems(targets, found, item.children);
    }
  }

  /** `findAllItemsInTree`: exactly the tree items whose path is one of the targets, in pre-order. */
  method FindAllItemsInTree(items: seq<RepoItem>, targetPaths: seq<string>) returns (found: seq<RepoItem>)
    ensures found == WithPathIn(PreOrder(items), set p | p in targetPaths)
    ensures forall x :: x in found <==> x in PreOrder(items) && x.path in targetPaths
  {
    var targets := set p | p in targetPaths;
    found := SearchItems(targets, [], items);
    forall x {
      WithPathInMembers(PreOrder(items), targets, x);
    }
  }
}
