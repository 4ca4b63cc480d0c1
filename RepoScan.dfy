// What the in-browser clone hook (src/hooks/chats/github/use-github.ts, and
// its older revision src/hooks/github/use-github.ts) derives from a cloned
// repository: item depths, the listing's statistics, the branch list and the
// names the directory walk skips.

module RepoScan {
  import opened Strings
  import opened Seqs
  import opened Sorting
  import opened RepoTree

  /** `path.split("/").length - 1` */
  function Depth(path: string): nat
  {
    |Split(path, "/")| - 1
  }

  /** Splitting at a one-character separator gives one piece more than there are separators. */
  lemma {:induction false} SplitCountsSeparators(s: string, c: char)
    ensures |Split(s, [c])| == multiset(s)[c] + 1
    decreases |s|
  {
    IndexOfSound(s, [c], 0);
    match IndexOf(s, [c], 0)
    case None =>
      forall k | 0 <= k < |s| ensures s[k] != c {
        assert !OccursAt(s, [c], k);
        assert s[k..k + 1] == [s[k]];
      }
      assert c !in multiset(s);
    case Some(i) =>
      var rest := s[i + 1..];
      forall k | 0 <= k < i ensures s[k] != c {
        assert !OccursAt(s, [c], k);
        assert s[k..k + 1] == [s[k]];
      }
      assert c !in multiset(s[..i]);
      assert s[i] == s[i..i + 1][0] == c;
      assert s == s[..i] + [s[i]] + rest;
      SplitCountsSeparators(rest, c);
  }

  /** An item's depth is the number of `/` in its path. */
  lemma DepthCountsSlashes(path: string)
    ensures Depth(path) == multiset(path)['/']
  {
    SplitCountsSeparators(path, '/');
  }

  /** `enhanceItemsWithDepth`: every item, in order, with its depth set from its path. */
  function EnhanceItemsWithDepth(items: seq<RepoItem>): (r: seq<RepoItem>)
    ensures |r| == |items|
    ensures forall i :: 0 <= i < |items| ==>
              r[i] == items[i].(depth := multiset(items[i].path)['/'])
  {
    if items == [] then []
    else
      var init := items[..|items| - 1];
      var last := items[|items| - 1];
      DepthCountsSlashes(last.path);
      EnhanceItemsWithDepth(init) + [last.(depth := Depth(last.path))]
  }

  datatype RepoStats = RepoStats(totalFiles: nat, totalDirectories: nat, maxDepth: nat, truncated: bool)

  /** The number of file items. */
  function CountFiles(items: seq<RepoItem>): (r: nat)
    ensures r <= |items|
  {
    if items == [] then 0
    else CountFiles(items[..|items| - 1]) + (if items[|items| - 1].itemType == File then 1 else 0)
  }

  /**
   * `calculateStats`: files and directories split the listing, `maxDepth`
   * is the largest depth (0 for an empty listing), and nothing is truncated.
   */
  method CalculateStats(items: seq<RepoItem>) returns (stats: RepoStats)
    ensures stats.totalFiles == CountFiles(items)
    ensures stats.totalFiles + stats.totalDirectories == |items|
    ensures forall i :: 0 <= i < |items| ==> multiset(items[i].path)['/'] <= stats.maxDepth
    ensures items == [] ==> stats.maxDepth == 0
    ensures items != [] ==> exists i :: 0 <= i < |items| && multiset(items[i].path)['/'] == stats.maxDepth
    ensures !stats.truncated
  {
    var totalFiles, totalDirectories, maxDepth := 0, 0, 0;
    var i := 0;
    while i < |items|
      invariant 0 <= i <= |items|
      invariant totalFiles == CountFiles(items[..i]) && totalFiles + totalDirectories == i
      invariant forall j :: 0 <= j < i ==> multiset(items[j].path)['/'] <= maxDepth
      invariant i == 0 ==> maxDepth == 0
      invariant i > 0 ==> exists j :: 0 <= j < i && multiset(items[j].path)['/'] == maxDepth
    {
      var item := items[i];
      if item.itemType == File {
        totalFiles := totalFiles + 1;
      } else {
        totalDirectories := totalDirectories + 1;
      }
      var depth := Depth(item.path);
      DepthCountsSlashes(item.path);
      maxDepth := if maxDepth >= depth then maxDepth else depth;
      assert items[..i + 1][..i] == items[..i];
      i := i + 1;
    }
    assert items[..i] == items;
    stats := RepoStats(totalFiles, totalDirectories, maxDepth, false);
  }

  const HeadsPrefix: string := "refs/heads/"

  /** `s.replace(pattern, replacement)` with a string pattern: the first occurrence only. */
  function ReplaceFirst(s: string, pattern: string, replacement: string): (r: string)
    ensures IndexOf(s, pattern, 0).None? ==> r == s
  {
    match IndexOf(s, pattern, 0)
    case None => s
    case Some(i) => s[..i] + replacement + s[i + |pattern|..]
  }

  /** A text that starts with the pattern loses exactly that prefix. */
  lemma ReplacePrefix(s: string, pattern: string)
    requires StartsWith(s, pattern)
    ensures ReplaceFirst(s, pattern, "") == s[|pattern|..]
  {
    assert IndexOf(s, pattern, 0) == Some(0);
  }

  predicate IsHeadRef(ref: string) {
    StartsWith(ref, HeadsPrefix)
  }

  function StripHeads(ref: string): string {
    ReplaceFirst(ref, HeadsPrefix, "")
  }

  /** The branch names among the refs, in the order listed: filtered, then stripped. */
  function HeadNames(refs: seq<string>): (r: seq<string>)
    ensures |r| <= |refs|
  {
    MapAll(Filter(refs, IsHeadRef), StripHeads)
  }

  /** A name is listed exactly when the refs hold `refs/heads/<name>`. */
  lemma HeadNamesMembers(refs: seq<string>, name: string)
    ensures name in HeadNames(refs) <==> HeadsPrefix + name in refs
  {
    var heads := Filter(refs, IsHeadRef);
    if name in HeadNames(refs) {
      var i :| 0 <= i < |heads| && HeadNames(refs)[i] == name;
      var ref := heads[i];
      assert ref in heads;
      ReplacePrefix(ref, HeadsPrefix);
      assert ref == HeadsPrefix + ref[|HeadsPrefix|..];
    }
    if HeadsPrefix + name in refs {
      var ref := HeadsPrefix + name;
      assert ref[..|HeadsPrefix|] == HeadsPrefix;
      FilterKeeps(refs, IsHeadRef);
      assert ref in heads;
      var i :| 0 <= i < |heads| && heads[i] == ref;
      ReplacePrefix(ref, HeadsPrefix);
      assert HeadNames(refs)[i] == name;
    }
  }

  /**
   * The branch list of `getRepoBranches`: the head names sorted, or `["main"]`
   * when there are none.
   */
  function ListBranches(refs: seq<string>): (r: seq<string>)
    ensures r != [] && SortedBy(r, LexLe)
    ensures HeadNames(refs) == [] ==> r == ["main"]
    ensures HeadNames(refs) != [] ==> multiset(r) == multiset(HeadNames(refs))
  {
    LexLeTotalPreorder();
    var branches := SortBy(HeadNames(refs), LexLe);
    if |branches| > 0 then branches else ["main"]
  }

  /** With at least one head ref, the listed branches are exactly the heads' names. */
  lemma ListedBranchesAreHeads(refs: seq<string>, name: string)
    requires exists ref :: ref in refs && IsHeadRef(ref)
    ensures name in ListBranches(refs) <==> HeadsPrefix + name in refs
  {
    var ref :| ref in refs && IsHeadRef(ref);
    ReplacePrefix(ref, HeadsPrefix);
    assert ref == HeadsPrefix + ref[|HeadsPrefix|..];
    HeadNamesMembers(refs, ref[|HeadsPrefix|..]);
    HeadNamesMembers(refs, name);
    assert name in ListBranches(refs) <==> name in multiset(ListBranches(refs));
  }

  /** The names the directory walk skips: `.git`, `node_modules` and anything starting with `.`. */
  predicate IsSkipped(entry: string) {
    entry == ".git" || entry == "node_modules" || StartsWith(entry, ".")
  }

  predicate IsKept(entry: string) {
    !IsSkipped(entry)
  }

  /** The entries of one directory the walk visits, in `readdir` order. */
  function KeptEntries(entries: seq<string>): (r: seq<string>)
    ensures |r| <= |entries|
  {
    Filter(entries, IsKept)
  }

  /** The walk visits exactly the entries that are not skipped, and never a hidden one. */
  lemma KeptEntriesMembers(entries: seq<string>, entry: string)
    ensures entry in KeptEntries(entries) <==> entry in entries && !IsSkipped(entry)
    ensures entry in KeptEntries(entries) ==> entry != [] ==> entry[0] != '.'
  {
    FilterKeeps(entries, IsKept);
  }
}
