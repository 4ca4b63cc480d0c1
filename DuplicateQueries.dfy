// The script that finds Convex API references used more than once
// (scripts/convex/find-duplicate-queries.ts): the files it scans, the
// `api.` references it finds in a text, and their aggregation. Reading
// directories and files and the command line are not part of this model.

module DuplicateQueries {
  import opened Strings
  import opened Seqs
  import opened Sorting
  import opened PathSets
  import ConvexUsage

  /** The directories `findAllFiles` never enters. */
  predicate IsSkippedDir(name: string) {
    name in ["node_modules", ".git", "dist", "build", ".next"]
  }

  const ScannedExtensions: seq<string> := [".ts", ".tsx", ".js", ".jsx"]

  /** What the walk of `findAllFiles` does with one directory entry: enter it, scan it, or pass it by. */
  predicate Enters(e: ConvexUsage.Entry) {
    e.Directory? && !IsSkippedDir(e.name)
  }

  predicate Scans(e: ConvexUsage.Entry) {
    e.File? && ConvexUsage.ExtName(e.name) in ScannedExtensions
  }

  /** The walk skips the directories the usage script skips, and `.next` as well; it scans the same files. */
  lemma WalkRulesExtendUsageRules(e: ConvexUsage.Entry)
    ensures Enters(e) ==> ConvexUsage.Enters(e)
    ensures ConvexUsage.Enters(e) <==> Enters(e) || e == ConvexUsage.Directory(".next")
    ensures Scans(e) <==> ConvexUsage.Keeps(e)
  {
  }

  predicate IsWordChar(c: char) {
    ('a' <= c <= 'z') || ('A' <= c <= 'Z') || ('0' <= c <= '9') || c == '_'
  }

  predicate IsIdentStart(c: char) {
    ('a' <= c <= 'z') || ('A' <= c <= 'Z') || c == '_'
  }

  /** The character at `i` may stand in a chain ending at `end`: a word character, or a dot before an identifier. */
  predicate ChainCharAt(c: string, i: int, end: int)
    requires 0 <= i < end <= |c|
  {
    IsWordChar(c[i]) || (c[i] == '.' && i + 1 < end && IsIdentStart(c[i + 1]))
  }

  /** `[a-zA-Z_][a-zA-Z0-9_]*(?:\.[a-zA-Z_][a-zA-Z0-9_]*)*`: identifiers joined by single dots. */
  predicate IsChain(s: string) {
    && |s| > 0 && IsIdentStart(s[0])
    && forall i :: 0 <= i < |s| ==> ChainCharAt(s, i, |s|)
  }

  /** The end of the run of word characters starting at `k`. */
  function WordEnd(c: string, k: nat): (e: nat)
    requires k <= |c|
    ensures k <= e <= |c| && (e < |c| ==> !IsWordChar(c[e]))
    ensures forall i :: k <= i < e ==> IsWordChar(c[i])
    decreases |c| - k
  {
    if k == |c| || !IsWordChar(c[k]) then k else WordEnd(c, k + 1)
  }

  /** The end of the longest chain starting at `k`, as the greedy `*` consumes it. */
  function ChainEnd(c: string, k: nat): (r: nat)
    requires k < |c| && IsIdentStart(c[k])
    ensures k < r <= |c|
    ensures forall i :: k <= i < r ==> ChainCharAt(c, i, r)
    ensures r < |c| ==> !IsWordChar(c[r]) && !(c[r] == '.' && r + 1 < |c| && IsIdentStart(c[r + 1]))
    decreases |c| - k
  {
    var w := WordEnd(c, k + 1);
    if w + 1 < |c| && c[w] == '.' && IsIdentStart(c[w + 1]) then
      var r := ChainEnd(c, w + 1);
      assert forall i :: k <= i < w ==> IsWordChar(c[i]);
      assert ChainCharAt(c, w, r);
      r
    else
      w
  }

  /** A match starting at `p`: `\bapi\.` and then a chain; the end of the match. */
  function MatchAt(c: string, p: nat): (r: Option<nat>)
    requires p < |c|
    ensures r.Some? ==> p + 4 < r.value <= |c| && c[p..p + 4] == "api." && IsChain(c[p + 4..r.value])
  {
    if (p == 0 || !IsWordChar(c[p - 1])) && p + 4 < |c| && c[p..p + 4] == "api." && IsIdentStart(c[p + 4]) then
      var e := ChainEnd(c, p + 4);
      var chain := c[p + 4..e];
      assert forall i :: 0 <= i < |chain| ==> chain[i] == c[p + 4 + i] && ChainCharAt(c, p + 4 + i, e);
      Some(e)
    else None
  }

  /** The global `exec` loop from `p`: each match found, searching on from where the last one ended. */
  function QueriesFrom(c: string, p: nat): (r: seq<string>)
    ensures forall q :: q in r ==> |q| > 4 && q[..4] == "api." && IsChain(q[4..])
    decreases |c| - p
  {
    if p >= |c| then []
    else match MatchAt(c, p)
      case Some(e) =>
        var q := "api." + c[p + 4..e];
        assert q[4..] == c[p + 4..e];
        [q] + QueriesFrom(c, e)
      case None => QueriesFrom(c, p + 1)
  }

  /** `findQueriesInFile` on a file's text: every reference, in order, each `api.` and a dotted chain. */
  function FindQueries(content: string): (r: seq<string>)
    ensures forall q :: q in r ==> |q| > 4 && q[..4] == "api." && IsChain(q[4..])
  {
    QueriesFrom(content, 0)
  }

  /** A text that is one reference finds exactly that reference. */
  lemma SingleReference(chain: string)
    requires IsChain(chain)
    ensures FindQueries("api." + chain) == ["api." + chain]
  {
    var c := "api." + chain;
    assert c[..4] == "api.";
    forall i | 4 <= i < |c|
      ensures ChainCharAt(c, i, |c|)
    {
      assert ChainCharAt(chain, i - 4, |chain|);
      assert c[i] == chain[i - 4];
      if i + 1 < |c| {
        assert c[i + 1] == chain[i - 3];
      }
    }
    ChainEndConsumesChain(c, 4);
    assert c[0..4] == "api." && c[4] == chain[0];
    assert MatchAt(c, 0) == Some(|c|);
    assert c[4..] == chain;
    assert QueriesFrom(c, |c|) == [];
    assert QueriesFrom(c, 0) == ["api." + c[4..|c|]] + QueriesFrom(c, |c|);
    assert c[4..|c|] == chain;
    assert FindQueries(c) == QueriesFrom(c, 0);
  }

  /** From inside a chain that runs to the end of the text, the greedy match runs to the end too. */
  lemma {:induction false} ChainEndConsumesChain(c: string, k: nat)
    requires k < |c| && IsIdentStart(c[k])
    requires forall i :: k <= i < |c| ==> ChainCharAt(c, i, |c|)
    ensures ChainEnd(c, k) == |c|
    decreases |c| - k
  {
    var w := WordEnd(c, k + 1);
    if w < |c| {
      assert ChainCharAt(c, w, |c|);
      ChainEndConsumesChain(c, w + 1);
    }
  }

  /** A reference glued to a word before it is not a match. */
  lemma NoMatchInsideWord(c: string, p: nat)
    requires 0 < p < |c| && IsWordChar(c[p - 1])
    ensures MatchAt(c, p).None?
  {
  }

  datatype Found = Found(query: string, file: string)

  datatype QueryUsage = QueryUsage(query: string, count: nat, files: seq<string>)

  /** The number of found references to `q`. */
  function QueryCount(all: seq<Found>, q: string): nat
  {
    if all == [] then 0
    else QueryCount(all[..|all| - 1], q) + (if all[|all| - 1].query == q then 1 else 0)
  }

  /** The usage of `q` in the map, if it has one. */
  function Lookup(usages: seq<QueryUsage>, q: string): Option<QueryUsage>
  {
    if usages == [] then None
    else if usages[0].query == q then Some(usages[0])
    else Lookup(usages[1..], q)
  }

  /** One pass of the loop: the query's usage counts one more and its file set gains the file. */
  function AddFound(usages: seq<QueryUsage>, f: Found): (r: seq<QueryUsage>)
  {
    if usages == [] then [QueryUsage(f.query, 1, [f.file])]
    else if usages[0].query == f.query then
      [usages[0].(count := usages[0].count + 1, files := WithItem(usages[0].files, f.file))] + usages[1..]
    else [usages[0]] + AddFound(usages[1..], f)
  }

  /** The map the loop of `aggregateQueries` builds, in the order queries were first seen. */
  function Aggregated(all: seq<Found>): seq<QueryUsage>
  {
    if all == [] then [] else AddFound(Aggregated(all[..|all| - 1]), all[|all| - 1])
  }

  /** The entry of a query agrees with the references found so far. */
  ghost predicate Describes(all: seq<Found>, usages: seq<QueryUsage>, q: string) {
    match Lookup(usages, q)
    case None => QueryCount(all, q) == 0
    case Some(u) =>
      && u.query == q && u.count == QueryCount(all, q) && u.count > 0
      && NoDuplicates(u.files) && |u.files| <= u.count
      && forall x :: x in u.files <==> Found(q, x) in all
  }

  lemma {:induction false} AddFoundLookup(usages: seq<QueryUsage>, f: Found, q: string)
    ensures Lookup(AddFound(usages, f), q) ==
            if q != f.query then Lookup(usages, q)
            else match Lookup(usages, q)
              case None => Some(QueryUsage(q, 1, [f.file]))
              case Some(u) => Some(u.(count := u.count + 1, files := WithItem(u.files, f.file)))
  {
    if usages != [] && usages[0].query != f.query {
      AddFoundLookup(usages[1..], f, q);
    }
  }

  /** Each entry of the map counts the references to its query and lists, once each, the files they are in. */
  lemma {:induction false} AggregatedDescribes(all: seq<Found>, q: string)
    ensures Describes(all, Aggregated(all), q)
  {
    if all != [] {
      var init, f := all[..|all| - 1], all[|all| - 1];
      AggregatedDescribes(init, q);
      AddFoundLookup(Aggregated(init), f, q);
      assert all == init + [f];
      if q == f.query {
        match Lookup(Aggregated(init), q)
        case None =>
          forall x ensures x in [f.file] <==> Found(q, x) in all {
            if Found(q, x) in init {
              QueryCountPositive(init, Found(q, x));
            }
          }
        case Some(u) =>
          WithItemSpec(u.files, f.file);
      }
    }
  }

  lemma {:induction false} QueryCountPositive(all: seq<Found>, f: Found)
    requires f in all
    ensures QueryCount(all, f.query) > 0
  {
    var init := all[..|all| - 1];
    if all[|all| - 1] != f {
      assert f in init by {
        var i :| 0 <= i < |all| && all[i] == f;
        assert init[i] == f;
      }
      QueryCountPositive(init, f);
    }
  }

  /** No two usages in the list are of the same query. */
  predicate DistinctQueries(usages: seq<QueryUsage>) {
    forall i, j :: 0 <= i < j < |usages| ==> usages[i].query != usages[j].query
  }

  /** The map holds each query once. */
  lemma {:induction false} AggregatedDistinct(all: seq<Found>)
    ensures DistinctQueries(Aggregated(all))
  {
    if all != [] {
      AggregatedDistinct(all[..|all| - 1]);
      AddFoundDistinct(Aggregated(all[..|all| - 1]), all[|all| - 1]);
    }
  }

  lemma {:induction false} AddFoundDistinct(usages: seq<QueryUsage>, f: Found)
    requires DistinctQueries(usages)
    ensures DistinctQueries(AddFound(usages, f))
  {
    if usages != [] {
      HeadDistinct(usages);
      DistinctTail(usages);
      if usages[0].query != f.query {
        var tail := AddFound(usages[1..], f);
        AddFoundDistinct(usages[1..], f);
        AddFoundFrom(usages[1..], f);
        ConsDistinct(usages[0], tail);
      } else {
        ConsDistinct(AddFound(usages, f)[0], usages[1..]);
      }
    }
  }

  /** No later usage has the query of the first. */
  lemma HeadDistinct(usages: seq<QueryUsage>)
    requires DistinctQueries(usages) && usages != []
    ensures forall u :: u in usages[1..] ==> u.query != usages[0].query
  {
    forall u | u in usages[1..] ensures u.query != usages[0].query {
      var m :| 0 <= m < |usages[1..]| && usages[1..][m] == u;
      assert usages[m + 1] == u;
    }
  }

  /** A usage put in front of distinct usages of other queries keeps them distinct. */
  lemma ConsDistinct(h: QueryUsage, tail: seq<QueryUsage>)
    requires DistinctQueries(tail)
    requires forall u :: u in tail ==> u.query != h.query
    ensures DistinctQueries([h] + tail)
  {
    var r := [h] + tail;
    forall i, j | 0 <= i < j < |r| ensures r[i].query != r[j].query {
      assert r[j] == tail[j - 1];
      if i > 0 {
        assert r[i] == tail[i - 1];
      }
    }
  }

  lemma DistinctTail(usages: seq<QueryUsage>)
    requires DistinctQueries(usages) && usages != []
    ensures DistinctQueries(usages[1..])
  {
    forall i, j | 0 <= i < j < |usages[1..]| ensures usages[1..][i].query != usages[1..][j].query {
      assert usages[1..][i] == usages[i + 1] && usages[1..][j] == usages[j + 1];
    }
  }

  /** A step adds or changes only the usage of the found query. */
  lemma {:induction false} AddFoundFrom(usages: seq<QueryUsage>, f: Found)
    ensures forall u :: u in AddFound(usages, f) ==> u.query == f.query || u in usages
  {
    if usages != [] && usages[0].query != f.query {
      AddFoundFrom(usages[1..], f);
      assert AddFound(usages, f) == [usages[0]] + AddFound(usages[1..], f);
      assert forall u :: u in usages[1..] ==> u in usages;
    } else if usages != [] {
      assert forall u :: u in usages[1..] ==> u in usages;
    }
  }

  /** Every listed usage comes from the map. */
  lemma {:induction false} AggregatedFromLookup(usages: seq<QueryUsage>, u: QueryUsage)
    requires DistinctQueries(usages)
    requires u in usages
    ensures Lookup(usages, u.query) == Some(u)
  {
    if usages[0] != u {
      assert u in usages[1..];
      assert usages[0].query != u.query by {
        var m :| 0 <= m < |usages[1..]| && usages[1..][m] == u;
        assert usages[m + 1] == u;
      }
      DistinctTail(usages);
      AggregatedFromLookup(usages[1..], u);
    }
  }

  /** A usage with its file list sorted. */
  function SortFiles(u: QueryUsage): (r: QueryUsage)
    ensures r.query == u.query && r.count == u.count && SortedBy(r.files, LexLe)
    ensures multiset(r.files) == multiset(u.files)
  {
    LexLeTotalPreorder();
    u.(files := SortBy(u.files, LexLe))
  }

  predicate IsDuplicate(u: QueryUsage) {
    u.count > 1
  }

  /** `b.count - a.count`: more uses first. */
  predicate MoreUsed(a: QueryUsage, b: QueryUsage) {
    a.count >= b.count
  }

  lemma MoreUsedTotalPreorder()
    ensures TotalPreorder(MoreUsed)
  {
  }

  /** The usages found more than once, each with its files sorted, in the map's order. */
  function Duplicates(all: seq<Found>): (r: seq<QueryUsage>)
    ensures forall u :: u in r ==> u.count > 1 && SortedBy(u.files, LexLe)
  {
    Filter(MapAll(Aggregated(all), SortFiles), IsDuplicate)
  }

  /** The result of `aggregateQueries`: the duplicates, most used first. */
  function AggregateQueries(all: seq<Found>): (r: seq<QueryUsage>)
    ensures SortedBy(r, MoreUsed)
    ensures multiset(r) == multiset(Duplicates(all))
  {
    MoreUsedTotalPreorder();
    SortBy(Duplicates(all), MoreUsed)
  }

  /**
   * A query is reported exactly when it was found more than once; its count
   * is the number of times, and its files are those it was found in, sorted,
   * each once, no more of them than the count.
   */
  lemma AggregateQueriesSpec(all: seq<Found>, u: QueryUsage)
    requires u in AggregateQueries(all)
    ensures u.count == QueryCount(all, u.query) && u.count > 1
    ensures SortedBy(u.files, LexLe) && NoDuplicates(u.files) && |u.files| <= u.count
    ensures forall x :: x in u.files <==> Found(u.query, x) in all
  {
    var agg := Aggregated(all);
    var mapped := MapAll(agg, SortFiles);
    assert u in multiset(AggregateQueries(all));
    assert u in Duplicates(all);
    var i :| 0 <= i < |mapped| && mapped[i] == u;
    var v := agg[i];
    AggregatedDistinct(all);
    AggregatedFromLookup(agg, v);
    AggregatedDescribes(all, v.query);
    SortedNoDuplicates(v.files, u.files);
    assert forall x :: x in u.files <==> x in multiset(u.files);
  }

  /** Every query found more than once is reported. */
  lemma DuplicatesAreReported(all: seq<Found>, q: string)
    requires QueryCount(all, q) > 1
    ensures exists u :: u in AggregateQueries(all) && u.query == q
  {
    var agg := Aggregated(all);
    AggregatedDescribes(all, q);
    var v := Lookup(agg, q).value;
    LookupIn(agg, q);
    var i :| 0 <= i < |agg| && agg[i] == v;
    var mapped := MapAll(agg, SortFiles);
    assert mapped[i] in mapped;
    FilterKeeps(mapped, IsDuplicate);
    var u := mapped[i];
    assert u in multiset(Duplicates(all));
    assert u in AggregateQueries(all);
  }

  lemma {:induction false} LookupIn(usages: seq<QueryUsage>, q: string)
    requires Lookup(usages, q).Some?
    ensures Lookup(usages, q).value in usages
  {
    if usages[0].query != q {
      LookupIn(usages[1..], q);
    }
  }

  /** A rearrangement of a list without duplicates has none either. */
  lemma SortedNoDuplicates(a: seq<string>, b: seq<string>)
    requires NoDuplicates(a) && multiset(a) == multiset(b)
    ensures NoDuplicates(b) && |b| == |a|
  {
    NoDuplicatesCounts(a);
    forall i, j | 0 <= i < j < |b| ensures b[i] != b[j] {
      var x := b[i];
      assert b == b[..i] + [b[i]] + b[i + 1..j] + [b[j]] + b[j + 1..];
      assert multiset(b)[x] >= multiset([b[i]])[x] + multiset([b[j]])[x];
      assert multiset([b[j]])[x] == if b[j] == x then 1 else 0;
    }
    assert |a| == |multiset(a)| == |multiset(b)| == |b|;
  }

  lemma {:induction false} NoDuplicatesCounts(a: seq<string>)
    requires NoDuplicates(a)
    ensures forall x :: multiset(a)[x] <= 1
  {
    if a != [] {
      var init := a[..|a| - 1];
      assert NoDuplicates(init);
      NoDuplicatesCounts(init);
      assert a == init + [a[|a| - 1]];
      assert a[|a| - 1] !in init by {
        forall k | 0 <= k < |init| ensures init[k] != a[|a| - 1] {
          assert init[k] == a[k];
        }
      }
    }
  }

  /** `aggregateQueries`: the loop over the references builds the map, which is then filtered and sorted. */
  method Aggregate(allQueries: seq<Found>) returns (result: seq<QueryUsage>)
    ensures result == AggregateQueries(allQueries)
  {
    var queryMap: seq<QueryUsage> := [];
    var i := 0;
    while i < |allQueries|
      invariant 0 <= i <= |allQueries| && queryMap == Aggregated(allQueries[..i])
    {
      queryMap := AddFound(queryMap, allQueries[i]);
      assert allQueries[..i + 1][..i] == allQueries[..i];
      i := i + 1;
    }
    assert allQueries[..i] == allQueries;
    MoreUsedTotalPreorder();
    result := SortBy(Filter(MapAll(queryMap, SortFiles), IsDuplicate), MoreUsed);
  }
}
