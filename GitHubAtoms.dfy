// The selection atoms of the cloned-repository picker (src/store/github.ts):
// the selected files and folders, the flat item listing they refer to, and
// the token budget that file selection must respect.

module GitHubAtoms {
  import opened RepoTree
  import opened PathSets

  /**
   * An entry of the flat listing held by `githubCombinedItemsAtom`. A file
   * without a token count has `tokenCount` 0: every reader tests the count
   * for truthiness only.
   */
  datatype FlatItem = FlatItem(name: string, path: string, itemType: ItemType, size: nat, tokenCount: nat, depth: nat)

  /** The initial value of `maxTokensAtom`. */
  const DefaultMaxTokens: int := 32000

  /** The token count of the first file entry with the path; 0 when there is none or it has no count. */
  function FileTokens(items: seq<FlatItem>, path: string): (r: nat)
    ensures r > 0 ==> exists i :: 0 <= i < |items| && items[i].path == path && items[i].itemType == File
                                  && items[i].tokenCount == r
  {
    if items == [] then 0
    else if items[0].path == path && items[0].itemType == File then items[0].tokenCount
    else
      var r := FileTokens(items[1..], path);
      assert r > 0 ==> exists i :: 1 <= i < |items| && items[i] == items[1..][i - 1] && items[i].path == path
                                  && items[i].itemType == File && items[i].tokenCount == r;
      r
  }

  /** The tokens of the files at the given paths, each path counted as often as it occurs. */
  function SumTokens(items: seq<FlatItem>, paths: seq<string>): (r: nat)
  {
    if paths == [] then 0 else FileTokens(items, paths[0]) + SumTokens(items, paths[1..])
  }

  lemma {:induction false} SumTokensAppend(items: seq<FlatItem>, a: seq<string>, b: seq<string>)
    ensures SumTokens(items, a + b) == SumTokens(items, a) + SumTokens(items, b)
  {
    if a == [] {
      assert a + b == b;
    } else {
      assert (a + b)[0] == a[0];
      assert (a + b)[1..] == a[1..] + b;
      SumTokensAppend(items, a[1..], b);
    }
  }

  /** Filtering paths out never adds tokens. */
  lemma {:induction false} SumTokensWithout(items: seq<FlatItem>, paths: seq<string>, gone: set<string>)
    ensures SumTokens(items, Without(paths, gone)) <= SumTokens(items, paths)
  {
    if paths != [] {
      SumTokensWithout(items, paths[1..], gone);
      var head := if paths[0] in gone then [] else [paths[0]];
      SumTokensAppend(items, head, Without(paths[1..], gone));
    }
  }

  /** Deselecting a selected file takes exactly its tokens off the usage. */
  lemma {:induction false} DeselectSubtracts(items: seq<FlatItem>, selected: seq<string>, path: string)
    requires NoDuplicates(selected) && path in selected
    ensures SumTokens(items, Without(selected, {path})) == SumTokens(items, selected) - FileTokens(items, path)
  {
    var rest := selected[1..];
    assert NoDuplicates(rest) by {
      forall i, j | 0 <= i < j < |rest| ensures rest[i] != rest[j] {
        assert rest[i] == selected[i + 1] && rest[j] == selected[j + 1];
      }
    }
    if selected[0] == path {
      forall i | 0 <= i < |rest| ensures rest[i] !in {path} {
        assert rest[i] == selected[i + 1] != selected[0];
      }
      WithoutNothing(rest, {path});
      assert Without(selected, {path}) == [] + Without(rest, {path}) == rest;
      assert SumTokens(items, selected) == FileTokens(items, path) + SumTokens(items, rest);
    } else {
      assert path in rest by {
        var k :| 0 <= k < |selected| && selected[k] == path;
        assert rest[k - 1] == path;
      }
      DeselectSubtracts(items, rest, path);
      SumTokensAppend(items, [selected[0]], Without(rest, {path}));
    }
  }

  /** Adding a path that is already present changes nothing; otherwise it adds that file's tokens. */
  lemma WithItemTokens(items: seq<FlatItem>, selected: seq<string>, path: string)
    ensures SumTokens(items, WithItem(selected, path))
         == SumTokens(items, selected) + (if path in selected then 0 else FileTokens(items, path))
  {
    if path !in selected {
      SumTokensAppend(items, selected, [path]);
      assert SumTokens(items, [path]) == FileTokens(items, path) + SumTokens(items, []);
    }
  }

  /** A list made duplicate-free never has more tokens than the list. */
  lemma {:induction false} AppendNewTokens(items: seq<FlatItem>, selected: seq<string>, paths: seq<string>)
    ensures SumTokens(items, AppendNew(selected, paths)) <= SumTokens(items, selected) + SumTokens(items, paths)
    decreases |paths|
  {
    if paths != [] {
      var init, last := paths[..|paths| - 1], paths[|paths| - 1];
      AppendNewTokens(items, selected, init);
      WithItemTokens(items, AppendNew(selected, init), last);
      assert paths == init + [last];
      SumTokensAppend(items, init, [last]);
    }
  }

  lemma DedupTokens(items: seq<FlatItem>, paths: seq<string>)
    ensures SumTokens(items, Dedup(paths)) <= SumTokens(items, paths)
  {
    AppendNewTokens(items, [], paths);
  }

  lemma WithoutKeepsNoDuplicates(selected: seq<string>, gone: set<string>)
    requires NoDuplicates(selected)
    ensures NoDuplicates(Without(selected, gone))
    decreases |selected|
  {
    if selected != [] {
      var rest := selected[1..];
      assert NoDuplicates(rest) by {
        forall i, j | 0 <= i < j < |rest| ensures rest[i] != rest[j] {
          assert rest[i] == selected[i + 1] && rest[j] == selected[j + 1];
        }
      }
      WithoutKeepsNoDuplicates(rest, gone);
      WithoutMembers(rest, gone, selected[0]);
      var r := Without(selected, gone);
      if selected[0] !in gone {
        assert r == [selected[0]] + Without(rest, gone);
        forall j | 0 < j < |r| ensures r[0] != r[j] {
          assert r[j] in Without(rest, gone);
        }
      }
    }
  }

  /**
   * The summing loop shared by `tokenUsageAtom` and `selectAllFilesAtom`:
   * for each path, the first file entry with it adds its count when it has one.
   */
  method SumFileTokens(items: seq<FlatItem>, paths: seq<string>) returns (totalTokens: nat)
    ensures totalTokens == SumTokens(items, paths)
  {
    totalTokens := 0;
    var i := 0;
    while i < |paths|
      invariant 0 <= i <= |paths|
      invariant totalTokens == SumTokens(items, paths[..i])
    {
      var tokens := FileTokens(items, paths[i]);
      if tokens > 0 {
        totalTokens := totalTokens + tokens;
      }
      assert paths[..i + 1] == paths[..i] + [paths[i]];
      SumTokensAppend(items, paths[..i], [paths[i]]);
      assert SumTokens(items, [paths[i]]) == tokens + SumTokens(items, []);
      i := i + 1;
    }
    assert paths[..i] == paths;
  }

  class SelectionAtoms {
    var selectedFiles: seq<string>
    var selectedFolders: seq<string>
    var combinedItems: seq<FlatItem>
    var maxTokens: int

    /** Both selections are sets. */
    ghost predicate Valid()
      reads this
    {
      NoDuplicates(selectedFiles) && NoDuplicates(selectedFolders)
    }

    constructor()
      ensures Valid()
      ensures selectedFiles == [] && selectedFolders == [] && combinedItems == []
      ensures maxTokens == DefaultMaxTokens
    {
      selectedFiles, selectedFolders, combinedItems := [], [], [];
      maxTokens := DefaultMaxTokens;
    }

    /** The value of `tokenUsageAtom`. */
    function Usage(): nat
      reads this
    {
      SumTokens(combinedItems, selectedFiles)
    }

    /** `tokenUsageAtom`: the tokens of the selected paths that name a file of the listing. */
    method TokenUsage() returns (totalTokens: nat)
      ensures totalTokens == Usage()
    {
      totalTokens := SumFileTokens(combinedItems, selectedFiles);
    }

    /** `isAtTokenLimitAtom` */
    predicate IsAtTokenLimit()
      reads this
    {
      Usage() >= maxTokens
    }

    /** `wouldExceedLimitAtom`: whether selecting the file would take usage past the maximum. */
    method WouldExceedLimit(filePath: string) returns (r: bool)
      ensures r <==> Usage() + FileTokens(combinedItems, filePath) > maxTokens
    {
      var currentUsage := TokenUsage();
      r := currentUsage + FileTokens(combinedItems, filePath) > maxTokens;
    }

    /** `totalSelectedCountAtom` */
    function TotalSelectedCount(): nat
      reads this
    {
      |selectedFiles| + |selectedFolders|
    }

    /**
     * `toggleFileSelectionAtom`: deselection always succeeds; selection is
     * refused, changing nothing, when the file's tokens would take usage past
     * the maximum. A usage within the maximum stays within it.
     */
    method ToggleFileSelection(filePath: string) returns (ok: bool)
      requires Valid()
      modifies this
      ensures Valid()
      ensures combinedItems == old(combinedItems) && selectedFolders == old(selectedFolders)
      ensures maxTokens == old(maxTokens)
      ensures filePath in old(selectedFiles) ==> ok && selectedFiles == Without(old(selectedFiles), {filePath})
      ensures filePath !in old(selectedFiles) ==>
                ok == (old(Usage()) + FileTokens(combinedItems, filePath) <= maxTokens)
                && selectedFiles == (if ok then old(selectedFiles) + [filePath] else old(selectedFiles))
      ensures old(Usage()) <= maxTokens ==> Usage() <= maxTokens
    {
      if filePath in selectedFiles {
        DeselectSubtracts(combinedItems, selectedFiles, filePath);
        WithoutKeepsNoDuplicates(selectedFiles, {filePath});
        selectedFiles := Without(selectedFiles, {filePath});
        return true;
      }
      var fileTokens := FileTokens(combinedItems, filePath);
      var currentUsage := TokenUsage();
      if currentUsage + fileTokens > maxTokens {
        return false;
      }
      WithItemSpec(selectedFiles, filePath);
      WithItemTokens(combinedItems, selectedFiles, filePath);
      selectedFiles := selectedFiles + [filePath];
      return true;
    }

    /** `toggleFolderSelectionAtom`: deselection always succeeds; selection is refused only at the limit. */
    method ToggleFolderSelection(folderPath: string) returns (ok: bool)
      requires Valid()
      modifies this
      ensures Valid()
      ensures combinedItems == old(combinedItems) && selectedFiles == old(selectedFiles)
      ensures maxTokens == old(maxTokens)
      ensures folderPath in old(selectedFolders) ==> ok && selectedFolders == Without(old(selectedFolders), {folderPath})
      ensures folderPath !in old(selectedFolders) ==>
                ok == !old(IsAtTokenLimit())
                && selectedFolders == (if ok then old(selectedFolders) + [folderPath] else old(selectedFolders))
    {
      var isAtLimit := IsAtTokenLimit();
      if folderPath in selectedFolders {
        WithoutKeepsNoDuplicates(selectedFolders, {folderPath});
        selectedFolders := Without(selectedFolders, {folderPath});
        return true;
      }
      if isAtLimit {
        return false;
      }
      WithItemSpec(selectedFolders, folderPath);
      selectedFolders := selectedFolders + [folderPath];
      return true;
    }

    /** `setSelectedFilesAtom` */
    method SetSelectedFiles(filePaths: seq<string>)
      requires Valid()
      modifies this
      ensures Valid()
      ensures selectedFiles == Dedup(filePaths)
      ensures combinedItems == old(combinedItems) && selectedFolders == old(selectedFolders)
      ensures maxTokens == old(maxTokens)
    {
      DedupSpec(filePaths);
      selectedFiles := Dedup(filePaths);
    }

    /**
     * `selectAllFilesAtom`: refused, changing nothing, when the listed files'
     * tokens together exceed the maximum; otherwise both selections are
     * replaced, and usage is then within the maximum.
     */
    method SelectAllFiles(filePaths: seq<string>, folderPaths: seq<string>) returns (ok: bool)
      requires Valid()
      modifies this
      ensures Valid()
      ensures combinedItems == old(combinedItems) && maxTokens == old(maxTokens)
      ensures ok <==> SumTokens(combinedItems, filePaths) <= maxTokens
      ensures ok ==> selectedFiles == Dedup(filePaths) && selectedFolders == Dedup(folderPaths)
      ensures !ok ==> selectedFiles == old(selectedFiles) && selectedFolders == old(selectedFolders)
      ensures ok ==> Usage() <= maxTokens
    {
      var totalTokens := SumFileTokens(combinedItems, filePaths);
      if totalTokens > maxTokens {
        return false;
      }
      DedupSpec(filePaths);
      DedupSpec(folderPaths);
      DedupTokens(combinedItems, filePaths);
      selectedFiles := Dedup(filePaths);
      selectedFolders := Dedup(folderPaths);
      return true;
    }

    /** `clearAllSelectionsAtom` */
    method ClearAllSelections()
      modifies this
      ensures Valid()
      ensures selectedFiles == [] && selectedFolders == [] && TotalSelectedCount() == 0
      ensures combinedItems == old(combinedItems) && maxTokens == old(maxTokens)
    {
      selectedFiles, selectedFolders := [], [];
    }
  }
}
