// The handlers that drive the GitHub picker's store: the hook of
// src/hooks/use-github.ts and the dialog of
// src/components/chat/input/github/github-dialog.tsx. Both load a
// repository's root, toggle items under the token limit and keep the running
// token total; the hook also selects all files greedily.

module GitHubHooks {
  import opened Strings
  import opened RepoTree
  import opened RepoViews
  import opened PathSets
  import opened TokenCounter
  import opened GitHubStore

  /** `Math.max(0, n)` */
  function AtLeastZero(n: int): (r: nat)
    ensures r >= n && (n >= 0 ==> r == n)
  {
    if n < 0 then 0 else n
  }

  /** What a selected path adds to the recomputed total: the tokens of the file it names, if any. */
  function PathTokens(items: seq<RepoItem>, path: string): nat
  {
    match FindItemInTree(items, path)
    case Some(item) => if item.itemType == File then item.tokens else 0
    case None => 0
  }

  /** The recomputed total: the tokens of every selected path that names a file. */
  function SelectedTokens(items: seq<RepoItem>, selected: seq<string>): nat
  {
    if selected == [] then 0 else PathTokens(items, selected[0]) + SelectedTokens(items, selected[1..])
  }

  lemma {:induction false} SelectedTokensAppend(items: seq<RepoItem>, a: seq<string>, b: seq<string>)
    ensures SelectedTokens(items, a + b) == SelectedTokens(items, a) + SelectedTokens(items, b)
  {
    if a == [] {
      assert a + b == b;
    } else {
      assert (a + b)[0] == a[0];
      assert (a + b)[1..] == a[1..] + b;
      SelectedTokensAppend(items, a[1..], b);
    }
  }

  /** Deselecting paths never raises the recomputed total. */
  lemma {:induction false} SelectedTokensWithout(items: seq<RepoItem>, selected: seq<string>, gone: set<string>)
    ensures SelectedTokens(items, Without(selected, gone)) <= SelectedTokens(items, selected)
  {
    if selected != [] {
      SelectedTokensWithout(items, selected[1..], gone);
      var head := if selected[0] in gone then [] else [selected[0]];
      SelectedTokensAppend(items, head, Without(selected[1..], gone));
    }
  }

  /** Folders and paths missing from the tree add nothing to the recomputed total. */
  lemma {:induction false} SelectedTokensOfNonFiles(items: seq<RepoItem>, selected: seq<string>)
    requires forall i :: 0 <= i < |selected| ==>
               FindItemInTree(items, selected[i]).None? || FindItemInTree(items, selected[i]).value.itemType == Dir
    ensures SelectedTokens(items, selected) == 0
  {
    if selected != [] {
      assert forall i :: 0 <= i < |selected[1..]| ==> selected[1..][i] == selected[i + 1];
      SelectedTokensOfNonFiles(items, selected[1..]);
    }
  }

  /** The loop of the recompute effect. */
  method CalculatedTokens(items: seq<RepoItem>, selected: seq<string>) returns (calculatedTokens: nat)
    ensures calculatedTokens == SelectedTokens(items, selected)
  {
    calculatedTokens := 0;
    var i := 0;
    while i < |selected|
      invariant 0 <= i <= |selected|
      invariant calculatedTokens == SelectedTokens(items, selected[..i])
    {
      var found := FindItemInTree(items, selected[i]);
      if found.Some? && found.value.itemType == File && found.value.tokens > 0 {
        calculatedTokens := calculatedTokens + found.value.tokens;
      }
      assert selected[..i + 1] == selected[..i] + [selected[i]];
      SelectedTokensAppend(items, selected[..i], [selected[i]]);
      assert SelectedTokens(items, [selected[i]]) == PathTokens(items, selected[i]) + SelectedTokens(items, []);
      i := i + 1;
    }
    assert selected[..i] == selected;
  }

  /** The effect of use-github.ts that keeps the total equal to the recomputed one. */
  method RecomputeTotalTokens(store: GitHubStore)
    modifies store
    ensures store.State() == old(store.State()).(totalTokens := SelectedTokens(old(store.items), old(store.selectedItems)))
  {
    var calculatedTokens := CalculatedTokens(store.items, store.selectedItems);
    if calculatedTokens != store.totalTokens {
      store.SetTotalTokens(calculatedTokens);
    }
  }

  /** How a toggle ended. `Blocked` is the token-limit error; `NotFetched` a file whose content could not be read. */
  datatype ToggleOutcome = NotFound | Deselected | Blocked | Selected | NotFetched

  /**
   * `handleToggleSelection` of use-github.ts. It relies on
   * `deselectItemWithTokens` and `selectItemWithTokens`, which the store does
   * not define; the tokens they report are parameters and only the total is
   * modelled. The total stays within `[0, TOKEN_LIMIT]` when it started there.
   */
  method HandleToggleSelection(store: GitHubStore, path: string, removedTokens: nat, addedTokens: nat)
    returns (outcome: ToggleOutcome)
    modifies store
    ensures outcome == NotFound <==> FindItemInTree(old(store.items), path).None?
    ensures outcome == Deselected <==> FindItemInTree(old(store.items), path).Some? && path in old(store.selectedItems)
    ensures outcome == Blocked <==>
              FindItemInTree(old(store.items), path).Some? && path !in old(store.selectedItems)
              && addedTokens > 0 && WouldExceedLimit(old(store.totalTokens), addedTokens)
    ensures outcome in {NotFound, Deselected, Blocked, Selected}
    ensures outcome in {NotFound, Blocked} ==> store.State() == old(store.State())
    ensures outcome == Deselected ==>
              store.State() == old(store.State()).(totalTokens := AtLeastZero(old(store.totalTokens) - removedTokens))
    ensures outcome == Selected ==>
              store.State() == old(store.State()).(totalTokens := old(store.totalTokens) + addedTokens)
    ensures 0 <= old(store.totalTokens) <= TokenLimit ==> 0 <= store.totalTokens <= TokenLimit
  {
    var item := FindItemInTree(store.items, path);
    if item.None? {
      return NotFound;
    }
    if path in store.selectedItems {
      store.SetTotalTokens(AtLeastZero(store.totalTokens - removedTokens));
      return Deselected;
    }
    if addedTokens > 0 && WouldExceedLimit(store.totalTokens, addedTokens) {
      return Blocked;
    }
    store.SetTotalTokens(store.totalTokens + addedTokens);
    return Selected;
  }

  /** The paths among the selection that name a file of the tree, in order. */
  function SelectedFilePaths(items: seq<RepoItem>, selected: seq<string>): (r: seq<string>)
    ensures |r| <= |selected|
  {
    if selected == [] then []
    else
      var found := FindItemInTree(items, selected[0]);
      (if found.Some? && found.value.itemType == File then [selected[0]] else [])
      + SelectedFilePaths(items, selected[1..])
  }

  /** What the greedy pass of "select all" picks: the paths and the token total reached. */
  datatype Pick = Pick(paths: seq<string>, tokens: nat)

  /**
   * The greedy pass from a running total: a file with tokens is taken while
   * it keeps the total within the limit and the pass stops at the first one
   * that would not; a file without tokens is taken as it is.
   */
  function GreedyPick(files: seq<RepoItem>, total: nat): (r: Pick)
    ensures r.tokens >= total
    ensures total <= TokenLimit ==> r.tokens <= TokenLimit
    ensures |r.paths| <= |files|
  {
    if files == [] then Pick([], total)
    else if files[0].tokens > 0 && WouldExceedLimit(total, files[0].tokens) then Pick([], total)
    else
      var rest := GreedyPick(files[1..], total + files[0].tokens);
      Pick([files[0].path] + rest.paths, rest.tokens)
  }

  /** How many files the greedy pass takes before it stops. */
  function Taken(files: seq<RepoItem>, total: nat): (k: nat)
    ensures k <= |files|
  {
    if files == [] then 0
    else if files[0].tokens > 0 && WouldExceedLimit(total, files[0].tokens) then 0
    else 1 + Taken(files[1..], total + files[0].tokens)
  }

  /** The tokens of a list of items. */
  function TokenSum(s: seq<RepoItem>): nat
  {
    if s == [] then 0 else s[0].tokens + TokenSum(s[1..])
  }

  /**
   * The greedy pass takes a prefix of the files, in order, and adds up their
   * tokens; when it stops early the next file has tokens that would take the
   * total past the limit.
   */
  lemma {:induction false} GreedyIsPrefix(files: seq<RepoItem>, total: nat)
    ensures var k := Taken(files, total);
            var r := GreedyPick(files, total);
            && r.paths == Paths(files[..k])
            && r.tokens == total + TokenSum(files[..k])
            && (k < |files| ==> files[k].tokens > 0 && r.tokens + files[k].tokens > TokenLimit)
  {
    if files != [] && !(files[0].tokens > 0 && WouldExceedLimit(total, files[0].tokens)) {
      var k := Taken(files, total);
      GreedyIsPrefix(files[1..], total + files[0].tokens);
      PrefixParts(files, k);
    } else {
      assert files[..0] == [];
    }
  }

  /** The first `k` files are the first one and the first `k - 1` of the rest. */
  lemma PrefixParts(files: seq<RepoItem>, k: nat)
    requires 1 <= k <= |files|
    ensures Paths(files[..k]) == [files[0].path] + Paths(files[1..][..k - 1])
    ensures TokenSum(files[..k]) == files[0].tokens + TokenSum(files[1..][..k - 1])
    ensures k < |files| ==> files[1..][k - 1] == files[k]
  {
    assert files[..k][1..] == files[1..][..k - 1];
  }

  /** Every file up to the stop is picked, those without tokens included. */
  lemma GreedyTakesFilesWithoutTokens(files: seq<RepoItem>, j: nat)
    requires j < Taken(files, 0)
    ensures files[j].path in GreedyPick(files, 0).paths
  {
    GreedyIsPrefix(files, 0);
    var k := Taken(files, 0);
    assert Paths(files[..k])[j] == files[..k][j].path == files[j].path;
  }

  /** The loop of "select all" over the files, with its `break`. */
  method SelectGreedily(allFiles: seq<RepoItem>) returns (itemsToSelect: seq<string>, totalFileTokens: nat)
    ensures Pick(itemsToSelect, totalFileTokens) == GreedyPick(allFiles, 0)
  {
    totalFileTokens := 0;
    itemsToSelect := [];
    var i := 0;
    while i < |allFiles|
      invariant 0 <= i <= |allFiles|
      invariant GreedyPick(allFiles, 0)
             == Pick(itemsToSelect + GreedyPick(allFiles[i..], totalFileTokens).paths,
                     GreedyPick(allFiles[i..], totalFileTokens).tokens)
    {
      var item := allFiles[i];
      assert allFiles[i..][0] == item && allFiles[i..][1..] == allFiles[i + 1..];
      if item.tokens > 0 {
        if !WouldExceedLimit(totalFileTokens, item.tokens) {
          totalFileTokens := totalFileTokens + item.tokens;
          itemsToSelect := itemsToSelect + [item.path];
        } else {
          assert GreedyPick(allFiles[i..], totalFileTokens) == Pick([], totalFileTokens);
          assert itemsToSelect + [] == itemsToSelect;
          return;
        }
      } else {
        itemsToSelect := itemsToSelect + [item.path];
      }
      i := i + 1;
    }
    assert allFiles[i..] == [];
    assert itemsToSelect + [] == itemsToSelect;
  }

  /**
   * `handleSelectAllFiles`: when as many files are selected as the rows show,
   * the selection is emptied and the total reset; otherwise the greedy pick
   * over the shown files replaces the selection and the total, which then is
   * within the limit. The token calculation for files without a count runs
   * asynchronously on copies the pass does not read.
   */
  method HandleSelectAllFiles(store: GitHubStore)
    modifies store
    ensures var allFiles := FilesOf(Visible(old(store.items)));
            |SelectedFilePaths(old(store.items), old(store.selectedItems))| == |allFiles| ==>
              store.State() == old(store.State()).(selectedItems := [], totalTokens := 0)
    ensures var allFiles := FilesOf(Visible(old(store.items)));
            var pick := GreedyPick(allFiles, 0);
            |SelectedFilePaths(old(store.items), old(store.selectedItems))| != |allFiles| ==>
              store.State() == old(store.State()).(selectedItems := pick.paths, totalTokens := pick.tokens)
    ensures 0 <= store.totalTokens <= TokenLimit
  {
    var rows := FlattenedItems(store.items);
    var allFiles := FilesOf(rows);
    var selectedFiles := SelectedFilePaths(store.items, store.selectedItems);
    if |selectedFiles| == |allFiles| {
      store.SetSelectedItems([]);
      store.SetTotalTokens(0);
      return;
    }
    var itemsToSelect, totalFileTokens := SelectGreedily(allFiles);
    store.SetSelectedItems(itemsToSelect);
    store.SetTotalTokens(totalFileTokens);
  }

  /** Why a load was refused before anything changed. */
  datatype LoadError = EmptyUrl | InvalidUrl | EmptyBranch

  /** What `loadRepository` answered: the root listing, or a failure (a thrown error included). */
  datatype LoadResult = Loaded(contents: seq<RepoItem>) | LoadFailed

  /** The root listing as stored: every item at depth 0 with its children not yet loaded. */
  function AtRoot(contents: seq<RepoItem>): (r: seq<RepoItem>)
    ensures |r| == |contents|
    ensures forall i :: 0 <= i < |r| ==> r[i] == contents[i].(depth := 0, childrenLoaded := false)
  {
    if contents == [] then [] else [contents[0].(depth := 0, childrenLoaded := false)] + AtRoot(contents[1..])
  }

  /** The validation both `handleLoadRepository`s run, in order. */
  function LoadCheck(repoUrl: string, parsedOk: bool, branch: string): Option<LoadError>
  {
    if IsBlank(repoUrl) then Some(EmptyUrl)
    else if !parsedOk then Some(InvalidUrl)
    else if IsBlank(branch) then Some(EmptyBranch)
    else None
  }

  /**
   * `handleLoadRepository` of use-github.ts (`resetsTotal`) and of
   * github-dialog.tsx (which leaves the total alone). A refused load changes
   * nothing; otherwise the selection is emptied and the root listing (or
   * nothing, on failure) is stored, with `loadSuccess` telling which.
   * `parsedOk` is whether `parseGitHubUrl` accepts the URL.
   */
  method HandleLoadRepository(store: GitHubStore, parsedOk: bool, result: LoadResult, resetsTotal: bool)
    returns (error: Option<LoadError>)
    modifies store
    ensures error == LoadCheck(old(store.repoUrl), parsedOk, old(store.branch))
    ensures error.Some? ==> store.State() == old(store.State())
    ensures error.None? ==>
              store.State() == old(store.State()).(
                items := if result.Loaded? then AtRoot(result.contents) else [],
                selectedItems := [],
                loading := false,
                loadSuccess := result.Loaded?,
                totalTokens := if resetsTotal then 0 else old(store.totalTokens))
  {
    if IsBlank(store.repoUrl) {
      return Some(EmptyUrl);
    }
    if !parsedOk {
      return Some(InvalidUrl);
    }
    if IsBlank(store.branch) {
      return Some(EmptyBranch);
    }
    StartLoad(store, resetsTotal);
    FinishLoad(store, result);
    return None;
  }

  /** The store before the fetch: loading, nothing listed or selected, and the total reset when asked. */
  method StartLoad(store: GitHubStore, resetsTotal: bool)
    modifies store
    ensures store.State() == old(store.State()).(
              items := [], selectedItems := [], loading := true, loadSuccess := false,
              totalTokens := if resetsTotal then 0 else old(store.totalTokens))
  {
    store.SetLoading(true);
    store.SetItems([]);
    store.SetSelectedItems([]);
    if resetsTotal {
      store.SetTotalTokens(0);
    }
    store.SetLoadSuccess(false);
  }

  /** The store after the fetch: the root listing, or nothing on failure, and loading over. */
  method FinishLoad(store: GitHubStore, result: LoadResult)
    modifies store
    ensures store.State() == old(store.State()).(
              items := if result.Loaded? then AtRoot(result.contents) else [],
              loading := false, loadSuccess := result.Loaded?)
  {
    match result {
      case Loaded(contents) =>
        store.SetItems(AtRoot(contents));
        store.SetLoadSuccess(true);
      case LoadFailed =>
        store.SetItems([]);
        store.SetLoadSuccess(false);
    }
    store.SetLoading(false);
  }

  /** `handleOpenChange` of the dialog: closing it resets the store. */
  method HandleOpenChange(store: GitHubStore, newOpen: bool)
    modifies store
    ensures !newOpen ==> store.State() == InitialState
    ensures newOpen ==> store.State() == old(store.State())
  {
    if !newOpen {
      store.ResetState();
    }
  }

  /**
   * `handleContinue` of the dialog: with nothing selected it reports an error
   * and stores nothing; otherwise, once the document is stored (`stored`),
   * the dialog closes and the store is reset.
   */
  method HandleContinue(store: GitHubStore, stored: bool) returns (nothingSelected: bool)
    modifies store
    ensures nothingSelected <==> old(store.selectedItems) == []
    ensures nothingSelected || !stored ==> store.State() == old(store.State())
    ensures !nothingSelected && stored ==> store.State() == InitialState
  {
    if |store.selectedItems| == 0 {
      return true;
    }
    if stored {
      HandleOpenChange(store, false);
    }
    return false;
  }

  /** A store state together with how a toggle ended. */
  datatype Toggled = Toggled(state: StoreState, outcome: ToggleOutcome)

  /**
   * `handleToggleSelection` of the dialog, on the store's state. A selected
   * path is deselected with its subtree and its own tokens leave the total,
   * floored at zero. A folder is selected recursively without accounting. A
   * file without content is read first when the URL parses (`fetched`): its
   * estimate is stored on the item, and it is selected unless that estimate
   * would take the total past the limit; a failed read changes nothing. A
   * file with tokens is selected under the same check; any other file is
   * selected without accounting.
   */
  function DialogToggle(s: StoreState, path: string, parsedOk: bool, fetched: Option<string>): Toggled
  {
    match FindItemInTree(s.items, path)
    case None => Toggled(s, NotFound)
    case Some(item) =>
      if path in s.selectedItems then
        Toggled(s.(selectedItems := DeselectRecursively(s.items, s.selectedItems, path),
                   totalTokens := if item.tokens > 0 then AtLeastZero(s.totalTokens - item.tokens) else s.totalTokens),
                Deselected)
      else if item.itemType == Dir then
        Toggled(s.(selectedItems := SelectRecursively(s.items, s.selectedItems, path)), Selected)
      else if parsedOk && item.content == [] then
        if fetched.None? || fetched.value == [] then Toggled(s, NotFetched)
        else
          var tokens := EstimateTokens(fetched.value);
          BudgetedSelect(s.(items := UpdateItemInTree(s.items, path, NewTokens(tokens))), path, tokens)
      else if item.tokens > 0 then BudgetedSelect(s, path, item.tokens)
      else Toggled(s.(selectedItems := SelectRecursively(s.items, s.selectedItems, path)), Selected)
  }

  /** Selecting a file that costs `tokens`: refused when the total would pass the limit, else selected and counted. */
  function BudgetedSelect(s: StoreState, path: string, tokens: nat): Toggled
  {
    if WouldExceedLimit(s.totalTokens, tokens) then Toggled(s, Blocked)
    else
      Toggled(s.(selectedItems := SelectRecursively(s.items, s.selectedItems, path),
                 totalTokens := s.totalTokens + tokens),
              Selected)
  }

  /** A total within `[0, TOKEN_LIMIT]` stays there whatever the toggle does. */
  lemma DialogToggleKeepsBudget(s: StoreState, path: string, parsedOk: bool, fetched: Option<string>)
    requires 0 <= s.totalTokens <= TokenLimit
    ensures 0 <= DialogToggle(s, path, parsedOk, fetched).state.totalTokens <= TokenLimit
  {
    match FindItemInTree(s.items, path)
    case None =>
    case Some(item) =>
      if path !in s.selectedItems && item.itemType != Dir {
        if parsedOk && item.content == [] {
          if fetched.Some? && fetched.value != [] {
            var tokens := EstimateTokens(fetched.value);
            BudgetedSelectFits(s.(items := UpdateItemInTree(s.items, path, NewTokens(tokens))), path, tokens);
          }
        } else if item.tokens > 0 {
          BudgetedSelectFits(s, path, item.tokens);
        }
      }
  }

  lemma BudgetedSelectFits(s: StoreState, path: string, tokens: nat)
    requires 0 <= s.totalTokens <= TokenLimit
    ensures 0 <= BudgetedSelect(s, path, tokens).state.totalTokens <= TokenLimit
  {
  }

  /** A path missing from the tree, and only such a path, changes nothing. */
  lemma DialogToggleNotFound(s: StoreState, path: string, parsedOk: bool, fetched: Option<string>)
    ensures var r := DialogToggle(s, path, parsedOk, fetched);
            && (r.outcome == NotFound <==> FindItemInTree(s.items, path).None?)
            && (r.outcome == NotFound ==> r.state == s)
  {
  }

  /** A refused or failed toggle leaves the selection and the total alone. */
  lemma DialogToggleRefused(s: StoreState, path: string, parsedOk: bool, fetched: Option<string>)
    requires DialogToggle(s, path, parsedOk, fetched).outcome in {Blocked, NotFetched}
    ensures DialogToggle(s, path, parsedOk, fetched).state.selectedItems == s.selectedItems
    ensures DialogToggle(s, path, parsedOk, fetched).state.totalTokens == s.totalTokens
  {
    var item := FindItemInTree(s.items, path).value;
    if parsedOk && item.content == [] {
      if fetched.Some? && fetched.value != [] {
        var tokens := EstimateTokens(fetched.value);
        BudgetedSelectRefused(s.(items := UpdateItemInTree(s.items, path, NewTokens(tokens))), path, tokens);
      }
    } else if item.tokens > 0 {
      BudgetedSelectRefused(s, path, item.tokens);
    }
  }

  lemma BudgetedSelectRefused(s: StoreState, path: string, tokens: nat)
    requires BudgetedSelect(s, path, tokens).outcome == Blocked
    ensures BudgetedSelect(s, path, tokens).state.selectedItems == s.selectedItems
    ensures BudgetedSelect(s, path, tokens).state.totalTokens == s.totalTokens
  {
  }

  /** A selected path of the tree is deselected, and afterwards it is out of the selection. */
  lemma DialogToggleDeselects(s: StoreState, path: string, parsedOk: bool, fetched: Option<string>)
    ensures var r := DialogToggle(s, path, parsedOk, fetched);
            && (r.outcome == Deselected <==> FindItemInTree(s.items, path).Some? && path in s.selectedItems)
            && (r.outcome == Deselected ==> path !in r.state.selectedItems)
  {
    if FindItemInTree(s.items, path).Some? && path in s.selectedItems {
      DeselectRemovesPath(s.items, s.selectedItems, path);
    }
  }

  /** After a selection the path is selected and every earlier selection is kept, in order. */
  lemma DialogToggleSelects(s: StoreState, path: string, parsedOk: bool, fetched: Option<string>)
    requires DialogToggle(s, path, parsedOk, fetched).outcome == Selected
    ensures path in DialogToggle(s, path, parsedOk, fetched).state.selectedItems
    ensures s.selectedItems <= DialogToggle(s, path, parsedOk, fetched).state.selectedItems
  {
    var item := FindItemInTree(s.items, path).value;
    SelectAddsPath(s.items, s.selectedItems, path);
    if item.itemType == File && parsedOk && item.content == [] {
      var tokens := EstimateTokens(fetched.value);
      var refreshed := s.(items := UpdateItemInTree(s.items, path, NewTokens(tokens)));
      SelectAfterNewTokens(s.items, s.selectedItems, path, path, tokens);
      BudgetedSelectSelects(refreshed, s.items, path, tokens);
    } else if item.itemType == File && item.tokens > 0 {
      BudgetedSelectSelects(s, s.items, path, item.tokens);
    }
  }

  lemma BudgetedSelectSelects(s: StoreState, items: seq<RepoItem>, path: string, tokens: nat)
    requires BudgetedSelect(s, path, tokens).outcome == Selected
    requires SelectRecursively(s.items, s.selectedItems, path) == SelectRecursively(items, s.selectedItems, path)
    ensures BudgetedSelect(s, path, tokens).state.selectedItems == SelectRecursively(items, s.selectedItems, path)
  {
  }

  /** `handleToggleSelection` of the dialog, through the store's actions. */
  method DialogToggleSelection(store: GitHubStore, path: string, parsedOk: bool, fetched: Option<string>)
    returns (outcome: ToggleOutcome)
    modifies store
    ensures Toggled(store.State(), outcome) == DialogToggle(old(store.State()), path, parsedOk, fetched)
  {
    var found := FindItemInTree(store.items, path);
    if found.None? {
      return NotFound;
    }
    var item := found.value;
    if path in store.selectedItems {
      store.DeselectItemRecursively(path);
      if item.tokens > 0 {
        store.SetTotalTokens(AtLeastZero(store.totalTokens - item.tokens));
      }
      return Deselected;
    }
    if item.itemType == Dir {
      store.SelectItemRecursively(path);
      return Selected;
    }
    if parsedOk && item.content == [] {
      if fetched.None? || fetched.value == [] {
        return NotFetched;
      }
      var tokens := EstimateTokens(fetched.value);
      store.UpdateItemTokens(path, tokens);
      outcome := SelectWithinBudget(store, path, tokens);
      return;
    }
    if item.tokens > 0 {
      outcome := SelectWithinBudget(store, path, item.tokens);
      return;
    }
    store.SelectItemRecursively(path);
    return Selected;
  }

  /** The limit check and selection shared by a freshly read file and a file with tokens. */
  method SelectWithinBudget(store: GitHubStore, path: string, tokens: nat) returns (outcome: ToggleOutcome)
    modifies store
    ensures Toggled(store.State(), outcome) == BudgetedSelect(old(store.State()), path, tokens)
  {
    if WouldExceedLimit(store.totalTokens, tokens) {
      return Blocked;
    }
    store.SelectItemRecursively(path);
    store.SetTotalTokens(store.totalTokens + tokens);
    return Selected;
  }
}
