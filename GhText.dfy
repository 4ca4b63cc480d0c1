// Saving a repository selection as a chat document and reading it back
// (src/components/chat/input/github/gh-text.ts). The URL parser and the
// content fetcher of `@/lib/github` are outside the model: their answers
// are parameters. The stored JSON text is modelled by its parsed fields.

module GhText {
  import opened Strings
  import opened Seqs
  import opened RepoTree
  import opened RepoViews

  datatype Outcome<T> = Ok(value: T) | Err(message: string)

  datatype Metadata = Metadata(owner: string, repo: string, timestamp: int, totalFiles: nat, totalFolders: nat)

  /** `GitHubRepoData` */
  datatype RepoData = RepoData(repoUrl: string, branch: string, selectedItems: seq<RepoItem>, metadata: Metadata)

  /** What `fetchFileContent` gave for one file: an answer, or a thrown error (`Threw`). */
  datatype FetchAnswer = Answer(success: bool, content: string, size: nat) | Threw

  /**
   * One round of the processing loop: a file without content takes the
   * fetched content and size when the fetch succeeded with content; every
   * other item is copied as it is.
   */
  function ProcessItem(item: RepoItem, fetch: string -> FetchAnswer): (r: RepoItem)
    ensures r.path == item.path && r.itemType == item.itemType && r.children == item.children
    ensures item.itemType == Dir || item.content != [] ==> r == item
    ensures r != item ==> r.content != []
  {
    if item.itemType == File && item.content == [] then
      match fetch(item.path)
      case Answer(success, content, size) =>
        if success && content != [] then item.(content := content, size := size) else item
      case Threw => item
    else item
  }

  /** The files the loop asks the fetcher for: those without content, in order. */
  function NeedsFetch(items: seq<RepoItem>): (r: seq<string>)
    ensures |r| <= |items|
  {
    if items == [] then []
    else
      var last := items[|items| - 1];
      NeedsFetch(items[..|items| - 1]) + (if last.itemType == File && last.content == [] then [last.path] else [])
  }

  /** Items of the same types with the same children have the same counts, tree and all. */
  lemma {:induction false} SameShapeSameCounts(a: seq<RepoItem>, b: seq<RepoItem>, t: ItemType)
    requires |a| == |b|
    requires forall i :: 0 <= i < |a| ==> a[i].itemType == b[i].itemType && a[i].children == b[i].children
    ensures CountOf(PreOrder(a), t) == CountOf(PreOrder(b), t)
    decreases |a|
  {
    if a != [] {
      SameShapeSameCounts(a[1..], b[1..], t);
      CountOfAppend([a[0]] + PreOrder(a[0].children), PreOrder(a[1..]), t);
      CountOfAppend([a[0]], PreOrder(a[0].children), t);
      CountOfAppend([b[0]] + PreOrder(b[0].children), PreOrder(b[1..]), t);
      CountOfAppend([b[0]], PreOrder(b[0].children), t);
    }
  }

  /**
   * `prepareGitHubData`. `parsed` is the parser's owner and repository,
   * `fetch` the fetcher's answer for each path and `now` the clock. Besides
   * the result, `fetched` lists the paths fetched, in order.
   */
  method PrepareGitHubData(repoUrl: string, branch: string, selectedPaths: seq<string>, allItems: seq<RepoItem>,
                           parsed: Option<(string, string)>, fetch: string -> FetchAnswer, now: int)
    returns (result: Outcome<RepoData>, fetched: seq<string>)
    ensures parsed.None? <==> result.Err?
    ensures parsed.None? ==> result == Err("Invalid GitHub URL") && fetched == []
    ensures parsed.Some? ==>
              var selected := WithPathIn(PreOrder(allItems), set p | p in selectedPaths);
              var data := result.value;
              && fetched == NeedsFetch(selected)
              && data.repoUrl == repoUrl && data.branch == branch
              && data.metadata.owner == parsed.value.0 && data.metadata.repo == parsed.value.1
              && data.metadata.timestamp == now
              && |data.selectedItems| == |selected|
              && (forall i :: 0 <= i < |selected| ==> data.selectedItems[i] == ProcessItem(selected[i], fetch))
              && data.metadata.totalFiles == CountOf(PreOrder(selected), File)
              && data.metadata.totalFolders == CountOf(PreOrder(selected), Dir)
  {
    fetched := [];
    if parsed.None? {
      return Err("Invalid GitHub URL"), fetched;
    }
    var selectedRepoItems := FindAllItemsInTree(allItems, selectedPaths);
    var processedItems;
    processedItems, fetched := ProcessItems(selectedRepoItems, fetch);
    var files, folders := CountItemsRecursively(processedItems);
    SameShapeSameCounts(processedItems, selectedRepoItems, File);
    SameShapeSameCounts(processedItems, selectedRepoItems, Dir);
    var metadata := Metadata(parsed.value.0, parsed.value.1, now, files, folders);
    result := Ok(RepoData(repoUrl, branch, processedItems, metadata));
  }

  /** The processing loop of `prepareGitHubData`: each item processed in order, fetching as it goes. */
  method ProcessItems(selectedRepoItems: seq<RepoItem>, fetch: string -> FetchAnswer)
    returns (processedItems: seq<RepoItem>, fetched: seq<string>)
    ensures |processedItems| == |selectedRepoItems|
    ensures forall j :: 0 <= j < |selectedRepoItems| ==> processedItems[j] == ProcessItem(selectedRepoItems[j], fetch)
    ensures fetched == NeedsFetch(selectedRepoItems)
  {
    processedItems, fetched := [], [];
    var i := 0;
    while i < |selectedRepoItems|
      invariant 0 <= i <= |selectedRepoItems|
      invariant |processedItems| == i
      invariant forall j :: 0 <= j < i ==> processedItems[j] == ProcessItem(selectedRepoItems[j], fetch)
      invariant fetched == NeedsFetch(selectedRepoItems[..i])
    {
      var item := selectedRepoItems[i];
      if item.itemType == File && item.content == [] {
        fetched := fetched + [item.path];
      }
      processedItems := processedItems + [ProcessItem(item, fetch)];
      assert selectedRepoItems[..i + 1][..i] == selectedRepoItems[..i];
      i := i + 1;
    }
    assert selectedRepoItems[..i] == selectedRepoItems;
  }

  /** A stored document after `JSON.parse`: each field present or absent. */
  datatype StoredFields = StoredFields(
    repoUrl: Option<string>,
    branch: Option<string>,
    selectedItems: Option<seq<RepoItem>>,
    metadata: Option<Metadata>)

  /** The text of a stored document: JSON that parses to some fields, or that `JSON.parse` rejects with a message. */
  datatype StoredText = Fields(fields: StoredFields) | Malformed(reason: string)

  const ParseErrorPrefix: string := "Failed to parse GitHub document: "

  /** A present string field is truthy when it is not empty. */
  predicate Truthy(s: Option<string>) {
    s.Some? && s.value != []
  }

  /**
   * `parseGitHubDocument`: the document as stored when the URL and branch are
   * non-empty and the items and metadata are present; otherwise an error
   * whose message carries the prefix.
   */
  function ParseGitHubDocument(text: StoredText): (r: Outcome<RepoData>)
    ensures r.Ok? <==> text.Fields? && Truthy(text.fields.repoUrl) && Truthy(text.fields.branch)
                       && text.fields.selectedItems.Some? && text.fields.metadata.Some?
    ensures r.Ok? ==> r.value.repoUrl == text.fields.repoUrl.value && r.value.branch == text.fields.branch.value
                      && r.value.selectedItems == text.fields.selectedItems.value
                      && r.value.metadata == text.fields.metadata.value
    ensures r.Err? ==> StartsWith(r.message, ParseErrorPrefix)
  {
    match text
    case Malformed(reason) =>
      assert (ParseErrorPrefix + reason)[..|ParseErrorPrefix|] == ParseErrorPrefix;
      Err(ParseErrorPrefix + reason)
    case Fields(f) =>
      if !Truthy(f.repoUrl) || !Truthy(f.branch) || f.selectedItems.None? || f.metadata.None? then
        assert (ParseErrorPrefix + "Invalid GitHub document format")[..|ParseErrorPrefix|] == ParseErrorPrefix;
        Err(ParseErrorPrefix + "Invalid GitHub document format")
      else Ok(RepoData(f.repoUrl.value, f.branch.value, f.selectedItems.value, f.metadata.value))
  }

  /** `JSON.stringify` of the data, as the fields it parses back to. */
  function Stored(data: RepoData): StoredFields
  {
    StoredFields(Some(data.repoUrl), Some(data.branch), Some(data.selectedItems), Some(data.metadata))
  }

  /** A document saved with a non-empty URL and branch reads back unchanged. */
  lemma StoredDocumentRoundTrip(data: RepoData)
    requires data.repoUrl != [] && data.branch != []
    ensures ParseGitHubDocument(Fields(Stored(data))) == Ok(data)
  {
  }

  /** A document saved with an empty branch is refused when read back. */
  lemma EmptyBranchIsRefused(data: RepoData)
    requires data.branch == []
    ensures ParseGitHubDocument(Fields(Stored(data))) == Err(ParseErrorPrefix + "Invalid GitHub document format")
  {
  }

  /** `getGitHubDocumentSummary`, without the locale-formatted date. */
  datatype Summary = Summary(repository: string, branch: string, totalFiles: nat, totalFolders: nat,
                             timestamp: int, fileList: seq<string>, folderList: seq<string>)

  function PathOf(item: RepoItem): string {
    item.path
  }

  predicate IsFileItem(item: RepoItem) {
    item.itemType == File
  }

  predicate IsDirItem(item: RepoItem) {
    item.itemType == Dir
  }

  function GetGitHubDocumentSummary(data: RepoData): (r: Summary)
    ensures r.repository == data.metadata.owner + "/" + data.metadata.repo
    ensures r.branch == data.branch && r.timestamp == data.metadata.timestamp
    ensures r.totalFiles == data.metadata.totalFiles && r.totalFolders == data.metadata.totalFolders
  {
    Summary(data.metadata.owner + "/" + data.metadata.repo, data.branch,
            data.metadata.totalFiles, data.metadata.totalFolders, data.metadata.timestamp,
            MapAll(Filter(data.selectedItems, IsFileItem), PathOf),
            MapAll(Filter(data.selectedItems, IsDirItem), PathOf))
  }

  /** The kept items of one type are as many as the listing holds of that type. */
  lemma {:induction false} FilterByTypeCount(items: seq<RepoItem>, p: RepoItem -> bool, t: ItemType)
    requires forall x :: p(x) <==> x.itemType == t
    ensures |Filter(items, p)| == CountOf(items, t)
  {
    if items != [] {
      var init, last := items[..|items| - 1], items[|items| - 1];
      FilterByTypeCount(init, p, t);
      CountOfAppend(init, [last], t);
      assert items == init + [last];
    }
  }

  /**
   * The summary lists the top-level selected items: as many file paths as
   * files and folder paths as folders, so between them one path per item.
   */
  lemma SummaryListsEveryItem(data: RepoData)
    ensures |GetGitHubDocumentSummary(data).fileList| == CountOf(data.selectedItems, File)
    ensures |GetGitHubDocumentSummary(data).folderList| == CountOf(data.selectedItems, Dir)
    ensures |GetGitHubDocumentSummary(data).fileList| + |GetGitHubDocumentSummary(data).folderList|
         == |data.selectedItems|
  {
    FilterByTypeCount(data.selectedItems, IsFileItem, File);
    FilterByTypeCount(data.selectedItems, IsDirItem, Dir);
    FilesPlusFolders(data.selectedItems);
  }

  /** A path is in the file list exactly when a top-level selected file has it. */
  lemma SummaryFileListMembers(data: RepoData, p: string)
    ensures p in GetGitHubDocumentSummary(data).fileList
        <==> exists i :: 0 <= i < |data.selectedItems| && data.selectedItems[i].itemType == File
                         && data.selectedItems[i].path == p
  {
    var files := Filter(data.selectedItems, IsFileItem);
    var list := MapAll(files, PathOf);
    if p in list {
      var k :| 0 <= k < |list| && list[k] == p;
      assert files[k] in files;
      var i :| 0 <= i < |data.selectedItems| && data.selectedItems[i] == files[k];
    }
    if exists i :: 0 <= i < |data.selectedItems| && data.selectedItems[i].itemType == File
                   && data.selectedItems[i].path == p {
      var i :| 0 <= i < |data.selectedItems| && data.selectedItems[i].itemType == File
               && data.selectedItems[i].path == p;
      FilterKeeps(data.selectedItems, IsFileItem);
      assert data.selectedItems[i] in files;
      var k :| 0 <= k < |files| && files[k] == data.selectedItems[i];
      assert list[k] == p;
    }
  }
}
