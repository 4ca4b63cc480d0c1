// The script that lists public Convex functions used only by the backend
// (scripts/convex/spec.js): its command line, the files it reads, the key
// of each public function, the substring count and the report. Reading
// directories and files and running `convex function-spec` are not part of
// this model: the function list and the file texts are parameters.

module ConvexUsage {
  import opened Strings
  import opened Seqs
  import opened Sorting

  /** `countOccurrences`' loop as a recursion: the matches found by repeated `indexOf` from `from`. */
  function Occurrences(s: string, sub: string, from: nat): nat
    requires |sub| > 0
    decreases |s| - from
  {
    match IndexOf(s, sub, from)
    case None => 0
    case Some(i) => 1 + Occurrences(s, sub, i + |sub|)
  }

  /** The matches do not overlap, so together they fit in the text after `from`. */
  lemma {:induction false} OccurrencesFit(s: string, sub: string, from: nat)
    requires |sub| > 0 && from <= |s|
    ensures Occurrences(s, sub, from) * |sub| <= |s| - from
    decreases |s| - from
  {
    match IndexOf(s, sub, from)
    case None =>
    case Some(i) =>
      OccurrencesFit(s, sub, i + |sub|);
      var k := Occurrences(s, sub, i + |sub|);
      assert Occurrences(s, sub, from) == 1 + k;
      MulStep(k, |sub|);
  }

  lemma MulStep(k: nat, m: nat)
    ensures (1 + k) * m == m + k * m
  {
  }

  /** No match exactly when the text does not contain the substring. */
  lemma NoOccurrencesIffAbsent(s: string, sub: string)
    requires |sub| > 0
    ensures Occurrences(s, sub, 0) == 0 <==> !Contains(s, sub)
  {
    ContainsIffIndexOf(s, sub);
  }

  /** `k` copies of the substring side by side hold exactly `k` matches. */
  lemma {:induction false} OccurrencesOfRepeat(sub: string, k: nat)
    requires |sub| > 0
    ensures Occurrences(Repeat(sub, k), sub, 0) == k
  {
    if k > 0 {
      var rest := Repeat(sub, k - 1);
      var s := sub + rest;
      assert s[0..|sub|] == sub;
      assert IndexOf(s, sub, 0) == Some(0);
      assert s[|sub|..] == rest;
      OccurrencesShift(s, rest, sub, |sub|, 0, |sub|);
      OccurrencesOfRepeat(sub, k - 1);
    }
  }

  function Repeat(sub: string, k: nat): (r: string)
    ensures |r| == k * |sub|
  {
    if k == 0 then [] else sub + Repeat(sub, k - 1)
  }

  /** Counting from inside a suffix does not see the text before it. */
  lemma {:induction false} OccurrencesShift(s: string, t: string, sub: string, n: nat, j: nat, nj: nat)
    requires |sub| > 0 && n + |t| == |s| && s[n..] == t && nj == n + j
    ensures Occurrences(s, sub, nj) == Occurrences(t, sub, j)
    decreases |t| - j
  {
    IndexOfShift(s, t, sub, n, j, nj);
    var found := IndexOf(t, sub, j);
    if found.None? {
      OccurrencesNone(t, sub, j);
      OccurrencesNone(s, sub, nj);
    } else {
      var i := found.value;
      var next := i + |sub|;
      var ni, nnext := n + i, n + next;
      OccurrencesSome(t, sub, j, i, next);
      OccurrencesSome(s, sub, nj, ni, nnext);
      OccurrencesShift(s, t, sub, n, next, nnext);
    }
  }

  /** Past the last match there is nothing more to count. */
  lemma OccurrencesNone(s: string, sub: string, from: nat)
    requires |sub| > 0 && IndexOf(s, sub, from).None?
    ensures Occurrences(s, sub, from) == 0
  {
  }

  /** A match counts one, and the count goes on after it. */
  lemma OccurrencesSome(s: string, sub: string, from: nat, i: nat, next: nat)
    requires |sub| > 0 && IndexOf(s, sub, from).Some? && IndexOf(s, sub, from).value == i && next == i + |sub|
    ensures Occurrences(s, sub, from) == 1 + Occurrences(s, sub, next)
  {
  }

  /** Searching from inside a suffix finds what the suffix alone holds, shifted by the prefix. */
  lemma {:induction false} IndexOfShift(s: string, t: string, sub: string, n: nat, j: nat, nj: nat)
    requires n + |t| == |s| && s[n..] == t && nj == n + j
    ensures IndexOf(t, sub, j).None? ==> IndexOf(s, sub, nj).None?
    ensures IndexOf(t, sub, j).Some? ==>
      IndexOf(s, sub, nj).Some? && IndexOf(s, sub, nj).value == n + IndexOf(t, sub, j).value
    decreases |t| - j
  {
    if j + |sub| <= |t| {
      assert s[n..][j..j + |sub|] == s[nj..nj + |sub|];
      if t[j..j + |sub|] != sub {
        IndexOfShift(s, t, sub, n, j + 1, nj + 1);
      }
    }
  }

  /** `countOccurrences(str, substr)` for a non-empty `substr` (an empty one never ends the loop). */
  method CountOccurrences(str: string, substr: string) returns (count: nat)
    requires |substr| > 0
    ensures count == Occurrences(str, substr, 0)
    ensures count * |substr| <= |str|
  {
    count := 0;
    var idx := 0;
    var found := IndexOf(str, substr, idx);
    while found.Some?
      invariant count + Occurrences(str, substr, idx) == Occurrences(str, substr, 0)
      invariant found == IndexOf(str, substr, idx)
      decreases |str| - idx
    {
      count := count + 1;
      idx := found.value + |substr|;
      found := IndexOf(str, substr, idx);
    }
    OccurrencesFit(str, substr, 0);
  }

  /** The directories `collectFiles` never enters. */
  predicate IsSkippedDir(name: string) {
    name == "node_modules" || name == ".git" || name == "dist" || name == "build"
  }

  const SourceExtensions: seq<string> := [".js", ".ts", ".jsx", ".tsx"]

  /**
   * `path.extname` of an entry name: from the last `.` on, except when that
   * dot starts the name or the name is `..`.
   */
  function ExtName(name: string): (r: string)
    ensures r == [] || (r[0] == '.' && EndsWith(name, r) && |r| < |name|)
  {
    match LastDot(name, |name|)
    case None => []
    case Some(d) => if d == 0 || name == ".." then [] else name[d..]
  }

  /** The index of the last `.` before `end`. */
  function LastDot(name: string, end: nat): (r: Option<nat>)
    requires end <= |name|
    ensures r.Some? ==> r.value < end && name[r.value] == '.' && forall k :: r.value < k < end ==> name[k] != '.'
    ensures r.None? ==> forall k :: 0 <= k < end ==> name[k] != '.'
  {
    if end == 0 then None
    else if name[end - 1] == '.' then Some(end - 1)
    else LastDot(name, end - 1)
  }

  datatype Entry = Directory(name: string) | File(name: string) | OtherEntry(name: string)

  /** What `collectFiles` does with one directory entry: enter it, keep it, or pass it by. */
  predicate Enters(e: Entry) {
    e.Directory? && !IsSkippedDir(e.name)
  }

  predicate Keeps(e: Entry) {
    e.File? && ExtName(e.name) in SourceExtensions
  }

  /** A kept file has a source extension; a hidden `.ts` with nothing before the dot is not kept. */
  lemma KeptFiles(base: string, ext: string)
    requires ext in SourceExtensions && base != []
    ensures Keeps(File(base + ext))
    ensures !Keeps(File(ext))
  {
    var name := base + ext;
    assert name[|base|] == '.';
    assert forall k :: |base| < k < |name| ==> name[k] == ext[k - |base|];
    assert ext[0] == '.' && forall k :: 0 < k < |ext| ==> ext[k] != '.';
    assert LastDot(name, |name|) == Some(|base|) by {
      LastDotAt(name, |base|);
    }
    assert name[|base|..] == ext;
    LastDotAt(ext, 0);
  }

  lemma LastDotAt(name: string, d: nat)
    requires d < |name| && name[d] == '.' && forall k :: d < k < |name| ==> name[k] != '.'
    ensures LastDot(name, |name|) == Some(d)
  {
    var r := LastDot(name, |name|);
    assert r.Some?;
  }

  /** The command line: the two directories, or the first argument that is not understood. */
  datatype Flags = Dirs(frontendDir: Option<string>, convexDir: Option<string>) | UnknownArgument(arg: string)

  /** `a.split("=")[1]`: the text between the first `=` and the next one (or the end). */
  function SecondPiece(a: string): string
  {
    match IndexOf(a, "=", 0)
    case None => []
    case Some(i) =>
      var rest := a[i + 1..];
      match IndexOf(rest, "=", 0)
      case None => rest
      case Some(j) => rest[..j]
  }

  /** `argv[++i]`: the next argument, or `undefined` past the end. */
  function ArgAt(argv: seq<string>, k: nat): Option<string> {
    if k < |argv| then Some(argv[k]) else None
  }

  /** The flag loop from argument `i` on, with the directories chosen so far. */
  function ParseFrom(argv: seq<string>, i: nat, frontendDir: Option<string>, convexDir: Option<string>): Flags
    decreases |argv| - i
  {
    if i >= |argv| then Dirs(frontendDir, convexDir)
    else
      var a := argv[i];
      if a == "--frontend" || a == "-f" then ParseFrom(argv, i + 2, ArgAt(argv, i + 1), convexDir)
      else if StartsWith(a, "--frontend=") then ParseFrom(argv, i + 1, Some(SecondPiece(a)), convexDir)
      else if a == "--convex" || a == "-c" then ParseFrom(argv, i + 2, frontendDir, ArgAt(argv, i + 1))
      else if StartsWith(a, "--convex=") then ParseFrom(argv, i + 1, frontendDir, Some(SecondPiece(a)))
      else UnknownArgument(a)
  }

  /** The flag parsing of `main`, with `src` and `convex` as the defaults. */
  method ParseArgs(argv: seq<string>) returns (flags: Flags)
    ensures flags == ParseFrom(argv, 0, Some("src"), Some("convex"))
  {
    var frontendDir: Option<string> := Some("src");
    var convexDir: Option<string> := Some("convex");
    var i := 0;
    while i < |argv|
      invariant ParseFrom(argv, i, frontendDir, convexDir) == ParseFrom(argv, 0, Some("src"), Some("convex"))
      decreases |argv| - i
    {
      var a := argv[i];
      if a == "--frontend" || a == "-f" {
        i := i + 1;
        frontendDir := ArgAt(argv, i);
      } else if StartsWith(a, "--frontend=") {
        frontendDir := Some(SecondPiece(a));
      } else if a == "--convex" || a == "-c" {
        i := i + 1;
        convexDir := ArgAt(argv, i);
      } else if StartsWith(a, "--convex=") {
        convexDir := Some(SecondPiece(a));
      } else {
        return UnknownArgument(a);
      }
      i := i + 1;
    }
    flags := Dirs(frontendDir, convexDir);
  }

  /** The spaced and the `=` forms of `--frontend` choose the same directory. */
  lemma FrontendFlagForms(dir: string)
    requires !HasChar(dir, '=')
    ensures ParseFrom(["--frontend", dir], 0, Some("src"), Some("convex")) == Dirs(Some(dir), Some("convex"))
    ensures ParseFrom(["--frontend=" + dir], 0, Some("src"), Some("convex")) == Dirs(Some(dir), Some("convex"))
  {
    SecondPieceOf("--frontend", dir);
    var a := "--frontend=" + dir;
    assert a == "--frontend" + "=" + dir;
    assert |a| >= 11;
  }

  /** The spaced and the `=` forms of `--convex` choose the same directory. */
  lemma ConvexFlagForms(dir: string)
    requires !HasChar(dir, '=')
    ensures ParseFrom(["-c", dir], 0, Some("src"), Some("convex")) == Dirs(Some("src"), Some(dir))
    ensures ParseFrom(["--convex=" + dir], 0, Some("src"), Some("convex")) == Dirs(Some("src"), Some(dir))
  {
    SecondPieceOf("--convex", dir);
    var a := "--convex=" + dir;
    assert a == "--convex" + "=" + dir;
    assert |a| >= 9;
    assert !StartsWith(a, "--frontend=") by { assert a[2] != "--frontend="[2]; }
  }

  lemma SecondPieceOf(flag: string, dir: string)
    requires !HasChar(flag, '=') && !HasChar(dir, '=')
    ensures SecondPiece(flag + "=" + dir) == dir
    ensures StartsWith(flag + "=" + dir, flag + "=")
  {
    var a := flag + "=" + dir;
    assert OccursAt(a, "=", |flag|) by { assert a[|flag|..|flag| + 1] == "="; }
    forall j | 0 <= j < |flag| ensures !OccursAt(a, "=", j) {
      assert a[j..j + 1] == [flag[j]];
    }
    IndexOfFirst(a, "=", |flag|);
    assert a[|flag| + 1..] == dir;
    ContainsIffIndexOf(dir, "=");
    assert !Contains(dir, "=") by {
      forall j | 0 <= j && j + 1 <= |dir| ensures !OccursAt(dir, "=", j) {
        assert dir[j..j + 1] == [dir[j]];
      }
    }
    assert a[..|flag| + 1] == flag + "=";
  }

  /** Any argument that is not one of the four flags stops the script with an error. */
  lemma UnknownArgumentStops(a: string, rest: seq<string>)
    requires a != "--frontend" && a != "-f" && a != "--convex" && a != "-c"
    requires !StartsWith(a, "--frontend=") && !StartsWith(a, "--convex=")
    ensures ParseFrom([a] + rest, 0, Some("src"), Some("convex")) == UnknownArgument(a)
  {
  }

  /** An entry of `convex function-spec`: its identifier when it is a string, and its visibility kind. */
  datatype FunctionSpec = FunctionSpec(identifier: Option<string>, visibility: Option<string>)

  datatype FuncKey = FuncKey(key: string, shortName: string)

  /** `.replace(/\.(js|ts)x?$/, "")` */
  function StripExt(s: string): (r: string)
    ensures r <= s
    ensures r != s ==> exists ext :: ext in SourceExtensions && s == r + ext
  {
    if EndsWith(s, ".jsx") || EndsWith(s, ".tsx") then
      assert s == s[..|s| - 4] + s[|s| - 4..];
      s[..|s| - 4]
    else if EndsWith(s, ".js") || EndsWith(s, ".ts") then
      assert s == s[..|s| - 3] + s[|s| - 3..];
      s[..|s| - 3]
    else s
  }

  /** The key and short name of a public function, nothing for any other entry. */
  function PublicKey(f: FunctionSpec): (r: Option<FuncKey>)
    ensures r.Some? ==> r.value.key == "api." + r.value.shortName
    ensures r.Some? ==> f.visibility == Some("public") && f.identifier.Some?
  {
    if f.identifier.None? then None
    else
      var parts := Split(f.identifier.value, ":");
      var filePath := parts[0];
      var fnName := if |parts| > 1 then parts[1] else "";
      if filePath == [] || fnName == [] then None
      else if f.visibility != Some("public") then None
      else
        var pathBits := MapAll(Split(filePath, "/"), StripExt);
        var shortName := Join(pathBits, ".") + "." + fnName;
        Some(FuncKey("api." + shortName, shortName))
  }

  /** For `file:fn` the key is `api.` and the path's segments, extensions stripped, then the function, all joined by dots. */
  lemma PublicKeyOf(filePath: string, fnName: string)
    requires filePath != [] && fnName != [] && !HasChar(filePath, ':') && !HasChar(fnName, ':')
    ensures var shortName := Join(MapAll(Split(filePath, "/"), StripExt), ".") + "." + fnName;
            PublicKey(FunctionSpec(Some(filePath + ":" + fnName), Some("public")))
              == Some(FuncKey("api." + shortName, shortName))
  {
    var parts := [filePath, fnName];
    assert Join(parts, ":") == filePath + ":" + fnName by {
      assert parts[1..] == [fnName];
    }
    SplitJoin(parts, ':');
  }

  /** Internal functions, and identifiers without both a file and a name, are never considered. */
  lemma OnlyPublicFunctions(identifier: string, visibility: Option<string>)
    requires visibility != Some("public")
    ensures PublicKey(FunctionSpec(Some(identifier), visibility)).None?
  {
  }

  /** The functions step 3 of `main` keeps, in the order listed. */
  function PublicKeys(fns: seq<FunctionSpec>): (r: seq<FuncKey>)
    ensures |r| <= |fns|
  {
    if fns == [] then []
    else
      var last := PublicKey(fns[|fns| - 1]);
      PublicKeys(fns[..|fns| - 1]) + (if last.Some? then [last.value] else [])
  }

  /** Step 3 of `main`: the loop over the function list. */
  method CollectPublicFunctions(fns: seq<FunctionSpec>) returns (funcs: seq<FuncKey>)
    ensures funcs == PublicKeys(fns)
  {
    funcs := [];
    var i := 0;
    while i < |fns|
      invariant 0 <= i <= |fns| && funcs == PublicKeys(fns[..i])
    {
      var k := PublicKey(fns[i]);
      if k.Some? {
        funcs := funcs + [k.value];
      }
      assert fns[..i + 1][..i] == fns[..i];
      i := i + 1;
    }
    assert fns[..i] == fns;
  }

  /** The matches of the short name summed over a list of file texts. */
  function TotalOccurrences(texts: seq<string>, shortName: string): nat
    requires |shortName| > 0
  {
    if texts == [] then 0
    else TotalOccurrences(texts[..|texts| - 1], shortName) + Occurrences(texts[|texts| - 1], shortName, 0)
  }

  datatype ReportRow = ReportRow(key: string, src: nat, convex: nat)

  /** The rows for the functions never named in the frontend but named in the backend, in list order. */
  function UnusedRows(funcs: seq<FuncKey>, srcTexts: seq<string>, convexTexts: seq<string>): (r: seq<ReportRow>)
    requires forall k :: k in funcs ==> |k.shortName| > 0
    ensures forall row :: row in r ==> row.src == 0 && row.convex > 0
    ensures forall row :: row in r ==>
      exists f :: f in funcs && row == ReportRow(f.key, 0, TotalOccurrences(convexTexts, f.shortName))
                 && TotalOccurrences(srcTexts, f.shortName) == 0
    ensures |r| <= |funcs|
  {
    if funcs == [] then []
    else
      var f := funcs[|funcs| - 1];
      var src := TotalOccurrences(srcTexts, f.shortName);
      var convex := TotalOccurrences(convexTexts, f.shortName);
      UnusedRows(funcs[..|funcs| - 1], srcTexts, convexTexts)
        + (if src == 0 && convex > 0 then [ReportRow(f.key, src, convex)] else [])
  }

  /** A function that no frontend file names and some backend file does is reported. */
  lemma {:induction false} UnusedRowsMembers(funcs: seq<FuncKey>, srcTexts: seq<string>, convexTexts: seq<string>, f: FuncKey)
    requires forall k :: k in funcs ==> |k.shortName| > 0
    requires f in funcs
    ensures var row := ReportRow(f.key, 0, TotalOccurrences(convexTexts, f.shortName));
            TotalOccurrences(srcTexts, f.shortName) == 0 && TotalOccurrences(convexTexts, f.shortName) > 0
            ==> row in UnusedRows(funcs, srcTexts, convexTexts)
  {
    var init := funcs[..|funcs| - 1];
    if f != funcs[|funcs| - 1] {
      assert f in init by {
        var i :| 0 <= i < |funcs| && funcs[i] == f;
        assert init[i] == f;
      }
      UnusedRowsMembers(init, srcTexts, convexTexts, f);
    }
  }

  /**
   * With keys of the form `api.<short name>`, as step 3 builds them, a
   * function's row is reported exactly when no frontend file names it and
   * some backend file does.
   */
  lemma UnusedRowsExactly(funcs: seq<FuncKey>, srcTexts: seq<string>, convexTexts: seq<string>, f: FuncKey)
    requires forall k :: k in funcs ==> |k.shortName| > 0 && k.key == "api." + k.shortName
    requires f in funcs
    ensures var row := ReportRow(f.key, 0, TotalOccurrences(convexTexts, f.shortName));
            row in UnusedRows(funcs, srcTexts, convexTexts)
            <==> TotalOccurrences(srcTexts, f.shortName) == 0 && TotalOccurrences(convexTexts, f.shortName) > 0
  {
    var row := ReportRow(f.key, 0, TotalOccurrences(convexTexts, f.shortName));
    UnusedRowsMembers(funcs, srcTexts, convexTexts, f);
    if row in UnusedRows(funcs, srcTexts, convexTexts) {
      var g :| g in funcs && row == ReportRow(g.key, 0, TotalOccurrences(convexTexts, g.shortName))
               && TotalOccurrences(srcTexts, g.shortName) == 0;
      ApiKeyShortName(f, g);
    }
  }

  /** Two keys `api.<short name>` that agree have the same short name. */
  lemma ApiKeyShortName(f: FuncKey, g: FuncKey)
    requires f.key == "api." + f.shortName && g.key == "api." + g.shortName && f.key == g.key
    ensures f.shortName == g.shortName
  {
    assert f.shortName == f.key[4..];
    assert g.shortName == g.key[4..];
  }

  /** Every function step 3 keeps has a key of the form `api.<short name>`. */
  lemma PublicKeysAreApiKeys(fns: seq<FunctionSpec>)
    ensures forall k :: k in PublicKeys(fns) ==> k.key == "api." + k.shortName
  {
    forall k | k in PublicKeys(fns) ensures k.key == "api." + k.shortName {
      PublicKeysShape(fns, k);
    }
  }

  predicate KeyLe(a: ReportRow, b: ReportRow) {
    LexLe(a.key, b.key)
  }

  lemma KeyLeTotalPreorder()
    ensures TotalPreorder(KeyLe)
  {
    LexLeTotalPreorder();
    forall a, b, c | KeyLe(a, b) && KeyLe(b, c) ensures KeyLe(a, c) {
      assert LexLe(a.key, b.key) && LexLe(b.key, c.key);
    }
  }

  /** The report: the unused rows sorted by key. */
  function Report(funcs: seq<FuncKey>, srcTexts: seq<string>, convexTexts: seq<string>): (r: seq<ReportRow>)
    requires forall k :: k in funcs ==> |k.shortName| > 0
    ensures SortedBy(r, KeyLe)
    ensures multiset(r) == multiset(UnusedRows(funcs, srcTexts, convexTexts))
    ensures forall row :: row in r ==> row.src == 0 && row.convex > 0
  {
    KeyLeTotalPreorder();
    var rows := SortBy(UnusedRows(funcs, srcTexts, convexTexts), KeyLe);
    assert forall row :: row in rows ==> row in multiset(UnusedRows(funcs, srcTexts, convexTexts));
    rows
  }

  /** Every short name holds a dot, so the substring count always ends. */
  lemma ShortNamesAreNonEmpty(fns: seq<FunctionSpec>)
    ensures forall k :: k in PublicKeys(fns) ==> |k.shortName| > 0
  {
    forall k | k in PublicKeys(fns) ensures |k.shortName| > 0 {
      PublicKeysShape(fns, k);
    }
  }

  lemma {:induction false} PublicKeysShape(fns: seq<FunctionSpec>, k: FuncKey)
    requires k in PublicKeys(fns)
    ensures exists f :: f in fns && PublicKey(f) == Some(k)
  {
    var init := fns[..|fns| - 1];
    var last := PublicKey(fns[|fns| - 1]);
    if k in PublicKeys(init) {
      PublicKeysShape(init, k);
      var f :| f in init && PublicKey(f) == Some(k);
      assert f in fns;
    } else {
      assert PublicKey(fns[|fns| - 1]) == Some(k);
    }
  }

  /** Steps 5 and 6 of `main`: count each function's matches in both trees and keep the unused ones. */
  method BuildReport(funcs: seq<FuncKey>, srcTexts: seq<string>, convexTexts: seq<string>) returns (report: seq<ReportRow>)
    requires forall k :: k in funcs ==> |k.shortName| > 0
    ensures report == Report(funcs, srcTexts, convexTexts)
  {
    var rows: seq<ReportRow> := [];
    var i := 0;
    while i < |funcs|
      invariant 0 <= i <= |funcs| && rows == UnusedRows(funcs[..i], srcTexts, convexTexts)
    {
      var f := funcs[i];
      var srcCount := SumCounts(srcTexts, f.shortName);
      var convexCount := SumCounts(convexTexts, f.shortName);
      if srcCount == 0 && convexCount > 0 {
        rows := rows + [ReportRow(f.key, srcCount, convexCount)];
      }
      assert funcs[..i + 1][..i] == funcs[..i];
      i := i + 1;
    }
    assert funcs[..i] == funcs;
    KeyLeTotalPreorder();
    report := SortBy(rows, KeyLe);
  }

  /** `for (const txt of texts) count += countOccurrences(txt, shortName)` */
  method SumCounts(texts: seq<string>, shortName: string) returns (total: nat)
    requires |shortName| > 0
    ensures total == TotalOccurrences(texts, shortName)
  {
    total := 0;
    var i := 0;
    while i < |texts|
      invariant 0 <= i <= |texts| && total == TotalOccurrences(texts[..i], shortName)
    {
      var c := CountOccurrences(texts[i], shortName);
      total := total + c;
      assert texts[..i + 1][..i] == texts[..i];
      i := i + 1;
    }
    assert texts[..i] == texts;
  }
}
