// The GitHub picker's store (src/store/githubStore.ts): the loaded tree, the
// selected paths, the expanded directories and the running token total, with
// the actions that replace them.

module GitHubStore {
  import opened Strings
  import opened RepoTree
  import opened PathSets

  /** Every field of the store at one moment. */
  datatype StoreState = StoreState(
    repoUrl: string,
    branch: string,
    branches: seq<string>,
    items: seq<RepoItem>,
    selectedItems: seq<string>,
    loading: bool,
    loadingBranches: bool,
    loadSuccess: bool,
    expandedDirs: set<string>,
    totalTokens: int,
    isDialogOpen: bool)

  /** `initialState`, which `resetState` also restores. */
  const InitialState := StoreState("", "main", [], [], [], false, false, false, {}, 0, false)

  /** The expanded set after `toggleExpandedDir`. */
  function Toggled(dirs: set<string>, path: string): (r: set<string>)
    ensures path in r <==> path !in dirs
    ensures forall p :: p != path ==> (p in r <==> p in dirs)
  {
    if path in dirs then dirs - {path} else dirs + {path}
  }

  /** Toggling the same directory twice gives back the set. */
  lemma ToggledTwice(dirs: set<string>, path: string)
    ensures Toggled(Toggled(dirs, path), path) == dirs
  {
    if path in dirs {
      assert Toggled(dirs, path) + {path} == dirs;
    } else {
      assert Toggled(dirs, path) - {path} == dirs;
    }
  }

  /** The paths of an item's subtree: its own, then its descendants' in pre-order. */
  function SubtreeOf(item: RepoItem): (r: seq<string>)
    ensures r == Paths(PreOrder([item]))
  {
    SubtreePaths(item);
    [item.path] + Paths(PreOrder(item.children))
  }

  /** The selection after `selectItemRecursively`. */
  function SelectRecursively(items: seq<RepoItem>, selected: seq<string>, path: string): seq<string>
  {
    match FindItemInTree(items, path)
    case None => selected
    case Some(item) => AppendNew(selected, SubtreeOf(item))
  }

  /**
   * Selecting a path that is not in the tree changes nothing; otherwise the
   * old selection stays a prefix, the path and all its descendants are
   * added, and no duplicate is created.
   */
  lemma SelectRecursivelySpec(items: seq<RepoItem>, selected: seq<string>, path: string)
    ensures FindItemInTree(items, path).None? ==> SelectRecursively(items, selected, path) == selected
    ensures FindItemInTree(items, path).None? <==> path !in Paths(PreOrder(items))
    ensures selected <= SelectRecursively(items, selected, path)
    ensures FindItemInTree(items, path).Some? ==>
              forall x :: (x in SelectRecursively(items, selected, path))
                          == (x in selected || x in SubtreeOf(FindItemInTree(items, path).value))
    ensures NoDuplicates(selected) ==> NoDuplicates(SelectRecursively(items, selected, path))
  {
    FindIffPresent(items, path);
    if FindItemInTree(items, path).Some? {
      AppendNewSpec(selected, SubtreeOf(FindItemInTree(items, path).value));
    }
  }

  /** The selection after `deselectItemRecursively`. */
  function DeselectRecursively(items: seq<RepoItem>, selected: seq<string>, path: string): seq<string>
  {
    match FindItemInTree(items, path)
    case None => selected
    case Some(item) => Without(selected, AsSet(SubtreeOf(item)))
  }

  /**
   * Deselecting a path that is not in the tree changes nothing; otherwise
   * exactly the path and its descendants leave the selection.
   */
  lemma DeselectRecursivelySpec(items: seq<RepoItem>, selected: seq<string>, path: string, x: string)
    ensures FindItemInTree(items, path).None? ==> DeselectRecursively(items, selected, path) == selected
    ensures FindItemInTree(items, path).Some? ==>
              ((x in DeselectRecursively(items, selected, path))
               == (x in selected && x !in SubtreeOf(FindItemInTree(items, path).value)))
  {
    if FindItemInTree(items, path).Some? {
      WithoutMembers(selected, AsSet(SubtreeOf(FindItemInTree(items, path).value)), x);
    }
  }

  /** Selecting a path of the tree puts it in the selection and keeps every path already there. */
  lemma SelectAddsPath(items: seq<RepoItem>, selected: seq<string>, path: string)
    requires FindItemInTree(items, path).Some?
    ensures path in SelectRecursively(items, selected, path)
    ensures selected <= SelectRecursively(items, selected, path)
  {
    SelectRecursivelySpec(items, selected, path);
    assert SubtreeOf(FindItemInTree(items, path).value)[0] == path;
  }

  /** Deselecting a path of the tree takes it out of the selection. */
  lemma DeselectRemovesPath(items: seq<RepoItem>, selected: seq<string>, path: string)
    requires FindItemInTree(items, path).Some?
    ensures path !in DeselectRecursively(items, selected, path)
  {
    DeselectRecursivelySpec(items, selected, path, path);
    assert SubtreeOf(FindItemInTree(items, path).value)[0] == path;
  }

  /** Storing a token count on an item does not change what selecting any path adds. */
  lemma SelectAfterNewTokens(items: seq<RepoItem>, selected: seq<string>, path: string, target: string, tokens: nat)
    ensures SelectRecursively(UpdateItemInTree(items, target, NewTokens(tokens)), selected, path)
         == SelectRecursively(items, selected, path)
  {
    SubtreeAfterNewTokens(items, target, path, tokens);
  }

  /** The subtree found at any path is unchanged by storing a token count. */
  lemma {:induction false} SubtreeAfterNewTokens(items: seq<RepoItem>, target: string, path: string, tokens: nat)
    ensures SameFound(FindItemInTree(items, path), FindItemInTree(UpdateItemInTree(items, target, NewTokens(tokens)), path))
  {
    if items != [] {
      var u := NewTokens(tokens);
      var r := UpdateItemInTree(items, target, u);
      var item := items[0];
      var head := r[0];
      assert r[1..] == UpdateItemInTree(items[1..], target, u);
      if item.path == target {
        assert head == item.(tokens := tokens);
      } else {
        assert head == item.(children := UpdateItemInTree(item.children, target, u));
        UpdateKeepsPaths(item.children, target, u);
      }
      assert SubtreeOf(head) == SubtreeOf(item);
      if item.path != path {
        SubtreeAfterNewTokens(items[1..], target, path, tokens);
        if item.path != target {
          SubtreeAfterNewTokens(item.children, target, path, tokens);
        }
      }
      FoundStep(items, r, path);
    }
  }

  /** Both lookups find nothing, or both find items with the same subtree paths. */
  predicate SameFound(a: Option<RepoItem>, b: Option<RepoItem>) {
    a.Some? == b.Some? && (a.Some? ==> SubtreeOf(a.value) == SubtreeOf(b.value))
  }

  /** Two forests whose first items and the rest look alike to a search find alike. */
  lemma FoundStep(items: seq<RepoItem>, r: seq<RepoItem>, path: string)
    requires items != [] && r != [] && items[0].path == r[0].path && SubtreeOf(items[0]) == SubtreeOf(r[0])
    requires items[0].path != path ==>
      && SameFound(FindItemInTree(items[0].children, path), FindItemInTree(r[0].children, path))
      && SameFound(FindItemInTree(items[1..], path), FindItemInTree(r[1..], path))
    ensures SameFound(FindItemInTree(items, path), FindItemInTree(r, path))
  {
  }

  /**
   * The body of `selectItemRecursively` once the item is found: push its path,
   * then each descendant path, skipping those already selected.
   */
  method PushSubtree(selected: seq<string>, item: RepoItem) returns (newSelectedItems: seq<string>)
    ensures newSelectedItems == AppendNew(selected, SubtreeOf(item))
  {
    newSelectedItems := selected;
    if item.path !in newSelectedItems {
      newSelectedItems := newSelectedItems + [item.path];
    }
    var childPaths := GetAllChildPaths(item);
    ghost var subtree := [item.path] + childPaths;
    AppendNewStep(selected, subtree, 0);
    assert subtree[..0] == [];
    var k := 0;
    while k < |childPaths|
      invariant 0 <= k <= |childPaths|
      invariant newSelectedItems == AppendNew(selected, subtree[..k + 1])
    {
      var childPath := childPaths[k];
      if childPath !in newSelectedItems {
        newSelectedItems := newSelectedItems + [childPath];
      }
      AppendNewStep(selected, subtree, k + 1);
      k := k + 1;
    }
    assert subtree[..k + 1] == subtree;
  }

  class GitHubStore {
    var repoUrl: string
    var branch: string
    var branches: seq<string>
    var items: seq<RepoItem>
    var selectedItems: seq<string>
    var loading: bool
    var loadingBranches: bool
    var loadSuccess: bool
    var expandedDirs: set<string>
    var totalTokens: int
    var isDialogOpen: bool

    function State(): StoreState
      reads this
    {
      StoreState(repoUrl, branch, branches, items, selectedItems, loading, loadingBranches,
                 loadSuccess, expandedDirs, totalTokens, isDialogOpen)
    }

    constructor()
      ensures State() == InitialState
    {
      repoUrl, branch, branches, items, selectedItems := "", "main", [], [], [];
      loading, loadingBranches, loadSuccess := false, false, false;
      expandedDirs, totalTokens, isDialogOpen := {}, 0, false;
    }

    method SetRepoUrl(url: string)
      modifies this
      ensures State() == old(State()).(repoUrl := url)
    {
      repoUrl := url;
    }

    method SetBranch(b: string)
      modifies this
      ensures State() == old(State()).(branch := b)
    {
      branch := b;
    }

    method SetBranches(names: seq<string>)
      modifies this
      ensures State() == old(State()).(branches := names)
    {
      branches := names;
    }

    method SetItems(newItems: seq<RepoItem>)
      modifies this
      ensures State() == old(State()).(items := newItems)
    {
      items := newItems;
    }

    method SetSelectedItems(paths: seq<string>)
      modifies this
      ensures State() == old(State()).(selectedItems := paths)
    {
      selectedItems := paths;
    }

    method SetLoading(b: bool)
      modifies this
      ensures State() == old(State()).(loading := b)
    {
      loading := b;
    }

    method SetLoadingBranches(b: bool)
      modifies this
      ensures State() == old(State()).(loadingBranches := b)
    {
      loadingBranches := b;
    }

    method SetLoadSuccess(b: bool)
      modifies this
      ensures State() == old(State()).(loadSuccess := b)
    {
      loadSuccess := b;
    }

    method SetTotalTokens(tokens: int)
      modifies this
      ensures State() == old(State()).(totalTokens := tokens)
    {
      totalTokens := tokens;
    }

    method SetExpandedDirs(dirs: set<string>)
      modifies this
      ensures State() == old(State()).(expandedDirs := dirs)
    {
      expandedDirs := dirs;
    }

    method SetDialogOpen(b: bool)
      modifies this
      ensures State() == old(State()).(isDialogOpen := b)
    {
      isDialogOpen := b;
    }

    /** `toggleExpandedDir`: the path leaves the expanded set if it was in it, else joins it. */
    method ToggleExpandedDir(path: string)
      modifies this
      ensures State() == old(State()).(expandedDirs := Toggled(old(expandedDirs), path))
    {
      if path in expandedDirs {
        expandedDirs := expandedDirs - {path};
      } else {
        expandedDirs := expandedDirs + {path};
      }
    }

    /** `addSelectedItem` */
    method AddSelectedItem(path: string)
      modifies this
      ensures State() == old(State()).(selectedItems := WithItem(old(selectedItems), path))
    {
      if path !in selectedItems {
        selectedItems := selectedItems + [path];
      }
    }

    /** `removeSelectedItem`: every occurrence of the path goes. */
    method RemoveSelectedItem(path: string)
      modifies this
      ensures State() == old(State()).(selectedItems := Without(old(selectedItems), {path}))
      ensures path !in selectedItems
    {
      selectedItems := Without(selectedItems, {path});
      WithoutMembers(old(selectedItems), {path}, path);
    }

    /** `updateItemTokens` */
    method UpdateItemTokens(path: string, tokens: nat)
      modifies this
      ensures State() == old(State()).(items := UpdateItemInTree(old(items), path, NewTokens(tokens)))
    {
      items := UpdateItemInTree(items, path, NewTokens(tokens));
    }

    /** `updateItemChildren`: the item gets the children and is marked loaded and expanded. */
    method UpdateItemChildren(path: string, children: seq<RepoItem>)
      modifies this
      ensures State() == old(State()).(items := UpdateItemInTree(old(items), path, NewChildren(children)))
      ensures FindItemInTree(old(items), path).Some? ==>
                FindItemInTree(items, path)
                == Some(FindItemInTree(old(items), path).value.(children := children, childrenLoaded := true, expanded := true))
      ensures FindItemInTree(old(items), path).None? ==> items == old(items)
    {
      items := UpdateItemInTree(items, path, NewChildren(children));
      UpdateThenFind(old(items), path, NewChildren(children));
      if FindItemInTree(old(items), path).None? {
        UpdateMissingIsIdentity(old(items), path, NewChildren(children));
      }
    }

    /** `setItemLoading` */
    method SetItemLoading(path: string, isLoading: bool)
      modifies this
      ensures State() == old(State()).(items := UpdateItemInTree(old(items), path, NewLoading(isLoading)))
    {
      items := UpdateItemInTree(items, path, NewLoading(isLoading));
    }

    /** `selectItemRecursively` */
    method SelectItemRecursively(path: string)
      modifies this
      ensures State() == old(State()).(selectedItems := SelectRecursively(old(items), old(selectedItems), path))
    {
      var found := FindItemInTree(items, path);
      if found.None? {
        return;
      }
      selectedItems := PushSubtree(selectedItems, found.value);
    }

    /** `deselectItemRecursively` */
    method DeselectItemRecursively(path: string)
      modifies this
      ensures State() == old(State()).(selectedItems := DeselectRecursively(old(items), old(selectedItems), path))
    {
      var found := FindItemInTree(items, path);
      if found.None? {
        return;
      }
      var childPaths := GetAllChildPaths(found.value);
      var pathsToRemove := AsSet([path] + childPaths);
      selectedItems := Without(selectedItems, pathsToRemove);
    }

    /** `getItemCounts`: the files and folders of the whole tree, which together are all its items. */
    method GetItemCounts() returns (totalFiles: nat, totalFolders: nat)
      ensures totalFiles == CountOf(PreOrder(items), File)
      ensures totalFolders == CountOf(PreOrder(items), Dir)
      ensures totalFiles + totalFolders == |PreOrder(items)|
    {
      totalFiles, totalFolders := CountItemsRecursively(items);
    }

    /** `resetState` */
    method ResetState()
      modifies this
      ensures State() == InitialState
    {
      repoUrl := "";
      branch := "main";
      branches := [];
      items := [];
      selectedItems := [];
      loading := false;
      loadingBranches := false;
      loadSuccess := false;
      expandedDirs := {};
      totalTokens := 0;
      isDialogOpen := false;
    }
  }
}
