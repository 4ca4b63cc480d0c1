// Lists of paths used as sets by the GitHub picker. A JavaScript `Set`
// keeps its insertion order, so it is modelled as a sequence without
// duplicates; `includes` + `push` and `filter` are the list operations the
// stores apply to them.

module PathSets {

  predicate NoDuplicates(s: seq<string>) {
    forall i, j :: 0 <= i < j < |s| ==> s[i] != s[j]
  }

  /** The selection after `addSelectedItem`: the path is appended unless it is already there. */
  function WithItem(selected: seq<string>, path: string): (r: seq<string>)
  {
    if path in selected then selected else selected + [path]
  }

  /** Adding keeps the old selection as a prefix, holds the path afterwards and creates no duplicate. */
  lemma WithItemSpec(selected: seq<string>, path: string)
    ensures selected <= WithItem(selected, path)
    ensures path in WithItem(selected, path)
    ensures forall x :: x in WithItem(selected, path) <==> x in selected || x == path
    ensures NoDuplicates(selected) ==> NoDuplicates(WithItem(selected, path))
  {
    var r := WithItem(selected, path);
    if path !in selected {
      assert r == selected + [path];
      assert r[|selected|] == path;
    }
  }

  function AsSet(s: seq<string>): (r: set<string>)
    ensures forall x :: x in r <==> x in s
  {
    set p | p in s
  }

  /** The selection with every path of `gone` filtered out, the rest in order. */
  function Without(selected: seq<string>, gone: set<string>): (r: seq<string>)
    ensures |r| <= |selected|
  {
    if selected == [] then []
    else (if selected[0] in gone then [] else [selected[0]]) + Without(selected[1..], gone)
  }

  /** What the filter keeps is exactly the selected paths outside `gone`. */
  lemma {:induction false} WithoutMembers(selected: seq<string>, gone: set<string>, x: string)
    ensures x in Without(selected, gone) <==> x in selected && x !in gone
  {
    if selected != [] {
      WithoutMembers(selected[1..], gone, x);
      assert selected == [selected[0]] + selected[1..];
    }
  }

  /** Filtering out paths that are not selected changes nothing. */
  lemma {:induction false} WithoutNothing(selected: seq<string>, gone: set<string>)
    requires forall i :: 0 <= i < |selected| ==> selected[i] !in gone
    ensures Without(selected, gone) == selected
  {
    if selected != [] {
      WithoutNothing(selected[1..], gone);
      assert selected == [selected[0]] + selected[1..];
    }
  }

  /** Appending, in order, each path that is not yet present: the `includes` + `push` loop. */
  function AppendNew(selected: seq<string>, paths: seq<string>): (r: seq<string>)
    decreases |paths|
  {
    if paths == [] then selected
    else WithItem(AppendNew(selected, paths[..|paths| - 1]), paths[|paths| - 1])
  }

  /** Appending keeps the old selection as a prefix, adds exactly the new paths and no duplicate. */
  lemma {:induction false} AppendNewSpec(selected: seq<string>, paths: seq<string>)
    ensures selected <= AppendNew(selected, paths)
    ensures forall x :: x in AppendNew(selected, paths) <==> x in selected || x in paths
    ensures NoDuplicates(selected) ==> NoDuplicates(AppendNew(selected, paths))
    decreases |paths|
  {
    if paths != [] {
      var init, last := paths[..|paths| - 1], paths[|paths| - 1];
      AppendNewSpec(selected, init);
      WithItemSpec(AppendNew(selected, init), last);
      assert paths == init + [last];
      assert forall x :: x in paths <==> x in init || x == last;
    }
  }

  lemma AppendNewStep(selected: seq<string>, paths: seq<string>, k: nat)
    requires k < |paths|
    ensures AppendNew(selected, paths[..k + 1]) == WithItem(AppendNew(selected, paths[..k]), paths[k])
  {
    assert paths[..k + 1][..k] == paths[..k];
  }

  lemma {:induction false} AppendNewLength(selected: seq<string>, paths: seq<string>)
    ensures |AppendNew(selected, paths)| <= |selected| + |paths|
    decreases |paths|
  {
    if paths != [] {
      AppendNewLength(selected, paths[..|paths| - 1]);
    }
  }

  /** `new Set(paths)`: the paths in order of first occurrence. */
  function Dedup(paths: seq<string>): (r: seq<string>)
  {
    AppendNew([], paths)
  }

  /** A set built from a list holds each of its paths exactly once. */
  lemma DedupSpec(paths: seq<string>)
    ensures NoDuplicates(Dedup(paths))
    ensures forall x :: x in Dedup(paths) <==> x in paths
    ensures |Dedup(paths)| <= |paths|
  {
    AppendNewSpec([], paths);
    AppendNewLength([], paths);
  }
}
