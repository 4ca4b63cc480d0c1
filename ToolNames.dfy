// Display helpers for tool calls (src/lib/tool-utils.ts): the readable name
// of a tool, the text shown for its output, and its status label and colour.
//
// Regular expressions are written out: `\w` is `[A-Za-z0-9_]`, `\b\w` is a
// word character that starts the string or follows a non-word character,
// and `toUpperCase` is applied to ASCII letters only.

module ToolNames {
  import opened Strings

  /** `TOOL_NAME_MAPPINGS`, as its own keys. */
  function MappedName(name: string): (r: Option<string>)
    ensures r.Some? ==> r.value != []
  {
    if name == "searchWeb" then Some("Web Search")
    else if name == "searchProjectDocuments" then Some("Project Search")
    else if name == "vectorSearch" then Some("Document Search")
    else None
  }

  predicate IsWordChar(c: char) {
    ('a' <= c <= 'z') || ('A' <= c <= 'Z') || ('0' <= c <= '9') || c == '_'
  }

  predicate IsUpperLetter(c: char) {
    'A' <= c <= 'Z'
  }

  /** Position `i` starts a word: `\b\w` matches there. */
  predicate StartsWord(s: string, i: int)
    requires 0 <= i < |s|
  {
    IsWordChar(s[i]) && (i == 0 || !IsWordChar(s[i - 1]))
  }

  /**
   * `.replace(/\b\w/g, (l) => l.toUpperCase())`: only the case of letters
   * changes, the first character of every word is not a lower-case letter,
   * and every other character is kept.
   */
  function TitleCase(s: string): (r: string)
    ensures |r| == |s| && ToLower(r) == ToLower(s)
    ensures forall i :: 0 <= i < |s| && StartsWord(s, i) ==> !('a' <= r[i] <= 'z')
    ensures forall i :: 0 <= i < |s| && !StartsWord(s, i) ==> r[i] == s[i]
  {
    var r := seq(|s|, i requires 0 <= i < |s| => if StartsWord(s, i) then UpperChar(s[i]) else s[i]);
    assert forall i :: 0 <= i < |s| ==> LowerChar(r[i]) == LowerChar(s[i]);
    r
  }

  /** `.replace(/([A-Z])/g, " $1")`: a space in front of every capital, which `Unspaced` takes out again. */
  function SpaceCapitals(s: string): (r: string)
    ensures |r| >= |s| && Unspaced(r) == s
    ensures forall i :: 0 <= i < |r| && IsUpperLetter(r[i]) ==> i > 0 && r[i - 1] == ' '
    ensures (forall i :: 0 <= i < |s| ==> s[i] != '_') ==> forall i :: 0 <= i < |r| ==> r[i] != '_'
  {
    if s == [] then []
    else
      var tail := s[1..];
      var rest := SpaceCapitals(tail);
      var head := if IsUpperLetter(s[0]) then [' ', s[0]] else [s[0]];
      SpaceCapitalsStep(s, tail, head, rest, head + rest);
      head + rest
  }

  /** One step of `SpaceCapitals`: the properties of the tail's result carry over to the whole. */
  lemma SpaceCapitalsStep(s: string, tail: string, head: string, rest: string, r: string)
    requires s != [] && tail == s[1..] && r == head + rest
    requires head == if IsUpperLetter(s[0]) then [' ', s[0]] else [s[0]]
    requires |rest| >= |tail| && Unspaced(rest) == tail
    requires forall i :: 0 <= i < |rest| && IsUpperLetter(rest[i]) ==> i > 0 && rest[i - 1] == ' '
    requires (forall i :: 0 <= i < |tail| ==> tail[i] != '_') ==> forall i :: 0 <= i < |rest| ==> rest[i] != '_'
    ensures |r| >= |s| && Unspaced(r) == s
    ensures forall i :: 0 <= i < |r| && IsUpperLetter(r[i]) ==> i > 0 && r[i - 1] == ' '
    ensures (forall i :: 0 <= i < |s| ==> s[i] != '_') ==> forall i :: 0 <= i < |r| ==> r[i] != '_'
  {
    assert forall i :: 0 <= i < |rest| ==> r[|head| + i] == rest[i];
    assert rest != [] ==> !IsUpperLetter(rest[0]);
    if IsUpperLetter(s[0]) {
      assert r[2..] == rest;
    } else {
      assert r[1..] == rest;
    }
    assert s == [s[0]] + tail;
  }

  /** Every space directly in front of a capital dropped: the inverse of `SpaceCapitals`. */
  function Unspaced(r: string): string
  {
    if r == [] then []
    else if |r| >= 2 && r[0] == ' ' && IsUpperLetter(r[1]) then [r[1]] + Unspaced(r[2..])
    else [r[0]] + Unspaced(r[1..])
  }

  /** `charAt(0).toUpperCase() + slice(1)`: the same letters, the first one not lower case. */
  function Capitalize(s: string): (r: string)
    ensures |r| == |s| && ToLower(r) == ToLower(s)
    ensures s != [] ==> r[1..] == s[1..] && !('a' <= r[0] <= 'z')
  {
    if s == [] then []
    else
      var r := [UpperChar(s[0])] + s[1..];
      assert LowerChar(r[0]) == LowerChar(s[0]);
      assert forall i :: 0 <= i < |s| ==> LowerChar(r[i]) == LowerChar(s[i]);
      r
  }

  /**
   * The fallback rendering of a tool name: underscores become spaces, a
   * space goes in front of every capital, words are title-cased and the
   * result is trimmed.
   */
  function Humanize(name: string): (r: string)
  {
    Trim(TitleCase(SpaceCapitals(ReplaceChar(name, '_', ' '))))
  }

  /** The fallback rendering holds no underscore and has no white space at either end. */
  lemma HumanizeShape(name: string)
    ensures !HasChar(Humanize(name), '_')
    ensures Trim(Humanize(name)) == Humanize(name)
  {
    var spaced := SpaceCapitals(ReplaceChar(name, '_', ' '));
    assert !HasChar(spaced, '_');
    TitleCaseKeepsNoUnderscore(spaced);
    TrimKeepsNoChar(TitleCase(spaced), '_');
    TrimIdempotent(TitleCase(spaced));
  }

  lemma TitleCaseKeepsNoUnderscore(s: string)
    requires !HasChar(s, '_')
    ensures !HasChar(TitleCase(s), '_')
  {
    var r := TitleCase(s);
    forall i | 0 <= i < |r| ensures r[i] != '_' {
      assert LowerChar(r[i]) == ToLower(r)[i] == ToLower(s)[i] == LowerChar(s[i]);
    }
  }

  /** Trimming only removes characters. */
  lemma TrimKeepsNoChar(s: string, c: char)
    requires !HasChar(s, c)
    ensures !HasChar(Trim(s), c)
  {
    var t := TrimStart(s);
    TrimStartSound(s);
    TrimEndSound(t);
    forall i | 0 <= i < |Trim(s)| ensures Trim(s)[i] != c {
      assert Trim(s)[i] == t[i] == s[|s| - |t| + i];
    }
  }

  /**
   * `cleanToolName`, with an absent name as `None`: a missing or empty name
   * gives a placeholder, an MCP name with a server and a tool gives
   * "Server: Tool Words", a mapped name its label, anything else its
   * fallback rendering. Only the table's own keys count as mapped.
   */
  function CleanToolName(rawName: Option<string>, isComplete: Option<bool>): (r: string)
    ensures r != [] || (rawName.Some? && Humanize(rawName.value) == [])
  {
    if rawName.None? || rawName.value == [] then
      if isComplete == Some(false) then "Tool Executing..." else "Unknown Tool"
    else
      var name := rawName.value;
      var parts := Split(name, "__");
      if StartsWith(name, "mcp__") && |parts| >= 3 then
        Capitalize(parts[1]) + ": " + TitleCase(ReplaceChar(Join(parts[2..], "_"), '_', ' '))
      else if MappedName(name).Some? then MappedName(name).value
      else Humanize(name)
  }

  /** A missing or empty name reads "Tool Executing..." exactly while the call is known to be running. */
  lemma CleanEmptyName(rawName: Option<string>, isComplete: Option<bool>)
    requires rawName.None? || rawName.value == []
    ensures CleanToolName(rawName, isComplete) == "Tool Executing..." <==> isComplete == Some(false)
    ensures isComplete != Some(false) ==> CleanToolName(rawName, isComplete) == "Unknown Tool"
  {
  }

  /** Every name of the table reads as its label. */
  lemma CleanMappedNames(isComplete: Option<bool>)
    ensures CleanToolName(Some("searchWeb"), isComplete) == "Web Search"
    ensures CleanToolName(Some("searchProjectDocuments"), isComplete) == "Project Search"
    ensures CleanToolName(Some("vectorSearch"), isComplete) == "Document Search"
  {
    NotMcp("searchWeb");
    NotMcp("searchProjectDocuments");
    NotMcp("vectorSearch");
  }

  lemma NotMcp(name: string)
    requires name != [] && name[0] != 'm'
    ensures !StartsWith(name, "mcp__")
  {
  }

  /**
   * A part that `split("__")` cuts out again after a join: it holds no `__`
   * and, unless it is the last part, does not end in `_` (which would make
   * the `__` after it start one character early).
   */
  predicate Parts(parts: seq<string>) {
    && (forall k :: 0 <= k < |parts| ==> !Contains(parts[k], "__"))
    && (forall k :: 0 <= k < |parts| - 1 ==> parts[k] == [] || parts[k][|parts[k]| - 1] != '_')
  }

  /**
   * `mcp__<server>__<part>__…__<part>` reads as the capitalised server, a
   * colon and the title-cased words of the parts joined by `_`.
   */
  lemma CleanMcpName(server: string, tool: seq<string>, isComplete: Option<bool>)
    requires |tool| >= 1 && Parts([server] + tool)
    ensures CleanToolName(Some("mcp__" + server + "__" + Join(tool, "__")), isComplete)
         == Capitalize(server) + ": " + TitleCase(ReplaceChar(Join(tool, "_"), '_', ' '))
  {
    var rest := Join(tool, "__");
    var name := "mcp__" + server + "__" + rest;
    McpNameSplits(server, tool);
    McpPrefix(server, rest);
    var parts := Split(name, "__");
    McpParts(server, tool, parts);
    McpBranch(name, parts, isComplete);
  }

  lemma McpPrefix(server: string, rest: string)
    ensures StartsWith("mcp__" + server + "__" + rest, "mcp__")
  {
    var name := "mcp__" + server + "__" + rest;
    assert name[..5] == "mcp__";
  }

  lemma McpParts(server: string, tool: seq<string>, parts: seq<string>)
    requires |tool| >= 1 && parts == ["mcp", server] + tool
    ensures |parts| >= 3 && parts[1] == server && parts[2..] == tool
  {
  }

  /** A name starting `mcp__` with at least three parts takes the MCP branch. */
  lemma McpBranch(name: string, parts: seq<string>, isComplete: Option<bool>)
    requires name != [] && StartsWith(name, "mcp__") && parts == Split(name, "__") && |parts| >= 3
    ensures CleanToolName(Some(name), isComplete)
         == Capitalize(parts[1]) + ": " + TitleCase(ReplaceChar(Join(parts[2..], "_"), '_', ' '))
  {
  }

  /** `mcp__<server>__<part>__…__<part>` splits at `__` into `mcp`, the server and the parts. */
  lemma McpNameSplits(server: string, tool: seq<string>)
    requires |tool| >= 1 && Parts([server] + tool)
    ensures Split("mcp__" + server + "__" + Join(tool, "__"), "__") == ["mcp", server] + tool
  {
    var all := ["mcp", server] + tool;
    assert all[1..] == [server] + tool && all[1..][1..] == tool;
    assert Join(all, "__") == "mcp__" + server + "__" + Join(tool, "__");
    assert !Contains("mcp", "__") by {
      forall i | 0 <= i <= 3 ensures !OccursAt("mcp", "__", i) {
        if i + 2 <= 3 { assert "mcp"[i..i + 2][0] == "mcp"[i]; }
      }
    }
    forall k | 0 <= k < |all| ensures !Contains(all[k], "__") {
      if k >= 1 { assert all[k] == ([server] + tool)[k - 1]; }
    }
    forall k | 0 <= k < |all| - 1 ensures all[k] == [] || all[k][|all[k]| - 1] != '_' {
      if k >= 1 { assert all[k] == ([server] + tool)[k - 1]; }
    }
    SplitJoinParts(all);
  }

  /** Joining parts with `__` and splitting at `__` gives the parts back. */
  lemma {:induction false} SplitJoinParts(parts: seq<string>)
    requires |parts| >= 1 && Parts(parts)
    ensures Split(Join(parts, "__"), "__") == parts
    decreases |parts|
  {
    if |parts| == 1 {
      ContainsIffIndexOf(parts[0], "__");
    } else {
      var rest := parts[1..];
      assert forall k :: 0 <= k < |rest| ==> rest[k] == parts[k + 1];
      var s := Join(parts, "__");
      assert s == parts[0] + "__" + Join(rest, "__");
      FirstSeparator(parts[0], Join(rest, "__"));
      assert s[..|parts[0]|] == parts[0];
      assert s[|parts[0]| + 2..] == Join(rest, "__");
      SplitJoinParts(rest);
      assert parts == [parts[0]] + rest;
    }
  }

  /** In `a + "__" + b`, the first `__` is the one after `a` when `a` holds no `__` and does not end in `_`. */
  lemma FirstSeparator(a: string, b: string)
    requires !Contains(a, "__") && (a == [] || a[|a| - 1] != '_')
    ensures IndexOf(a + "__" + b, "__", 0) == Some(|a|)
  {
    var s := a + "__" + b;
    assert OccursAt(s, "__", |a|) by { assert s[|a|..|a| + 2] == "__"; }
    forall j | 0 <= j < |a| ensures !OccursAt(s, "__", j) {
      if OccursAt(s, "__", j) {
        assert s[j..j + 2][0] == s[j] == a[j] == '_';
        if j + 1 < |a| {
          assert s[j..j + 2][1] == a[j + 1];
          assert a[j..j + 2] == "__";
          assert OccursAt(a, "__", j);
        }
      }
    }
    IndexOfFirst(s, "__", |a|);
  }

  /** An unmapped, non-MCP name reads as its fallback rendering. */
  lemma CleanUnmappedName(name: string, isComplete: Option<bool>)
    requires name != [] && !StartsWith(name, "mcp__") && MappedName(name).None?
    ensures CleanToolName(Some(name), isComplete) == Humanize(name)
  {
  }

  /**
   * The keys `in` also finds on a plain object: the members every object
   * inherits from `Object.prototype`.
   */
  const InheritedKeys: set<string> := {
    "constructor", "hasOwnProperty", "isPrototypeOf", "propertyIsEnumerable", "toLocaleString",
    "toString", "valueOf", "__proto__", "__defineGetter__", "__defineSetter__",
    "__lookupGetter__", "__lookupSetter__"
  }

  /** What `cleanToolName` returns as written: a string, or an inherited member of the table that is not one. */
  datatype Label = Shown(text: string) | InheritedMember(key: string)

  /**
   * `cleanToolName` as written, where `rawName in TOOL_NAME_MAPPINGS` also
   * holds for the inherited keys and the lookup then returns the inherited
   * member instead of a label.
   */
  function CleanToolNameAsWritten(rawName: Option<string>, isComplete: Option<bool>): (r: Label)
    ensures r.InheritedMember? ==> r.key in InheritedKeys
  {
    if rawName.None? || rawName.value == [] then
      Shown(if isComplete == Some(false) then "Tool Executing..." else "Unknown Tool")
    else
      var name := rawName.value;
      var parts := Split(name, "__");
      if StartsWith(name, "mcp__") && |parts| >= 3 then
        Shown(Capitalize(parts[1]) + ": " + TitleCase(ReplaceChar(Join(parts[2..], "_"), '_', ' ')))
      else if MappedName(name).Some? then Shown(MappedName(name).value)
      else if name in InheritedKeys then InheritedMember(name)
      else Shown(Humanize(name))
  }

  /** Apart from the inherited keys, the code as written agrees with the model. */
  lemma AsWrittenAgreesOutsideInheritedKeys(rawName: Option<string>, isComplete: Option<bool>)
    requires rawName.None? || rawName.value !in InheritedKeys
    ensures CleanToolNameAsWritten(rawName, isComplete) == Shown(CleanToolName(rawName, isComplete))
  {
  }

  /** A tool named `toString` gets no label from the code as written, and its fallback rendering from the model. */
  lemma ToStringToolName(isComplete: Option<bool>)
    ensures CleanToolNameAsWritten(Some("toString"), isComplete) == InheritedMember("toString")
    ensures CleanToolName(Some("toString"), isComplete) == Humanize("toString")
  {
    NotMcp("toString");
  }

  /** What a tool produced: nothing (or a falsy value), a string, or another value with its JSON text. */
  datatype ToolOutput = Missing | Text(text: string) | Value(json: string)

  /** The incomplete JSON fragments shown while output streams in. */
  predicate IsFragment(s: string) {
    s == "{\"" || s == "{" || s == "\""
  }

  /**
   * `formatToolOutput`. `prettyJson` stands for `JSON.parse` followed by
   * `JSON.stringify(parsed, null, 2)`, `None` when the text does not parse.
   */
  function FormatToolOutput(output: ToolOutput, isStreaming: bool, prettyJson: string -> Option<string>): (r: string)
    ensures output.Text? && output.text != [] && !IsFragment(output.text) && prettyJson(output.text).None?
            ==> r == output.text
  {
    match output
    case Missing => if isStreaming then "Waiting for output..." else ""
    case Text(s) =>
      if s == [] then (if isStreaming then "Waiting for output..." else "")
      else if IsFragment(s) then (if isStreaming then "Receiving data..." else "Invalid output")
      else if prettyJson(s).Some? then prettyJson(s).value
      else s
    case Value(json) => json
  }

  /** No output reads "Waiting for output..." exactly while streaming, and nothing otherwise. */
  lemma FormatMissingOutput(output: ToolOutput, isStreaming: bool, prettyJson: string -> Option<string>)
    requires output.Missing? || output == Text([])
    ensures FormatToolOutput(output, isStreaming, prettyJson) == "Waiting for output..." <==> isStreaming
    ensures !isStreaming ==> FormatToolOutput(output, isStreaming, prettyJson) == []
  {
  }

  /** A half-received JSON fragment reads "Receiving data..." exactly while streaming, else "Invalid output". */
  lemma FormatFragment(s: string, isStreaming: bool, prettyJson: string -> Option<string>)
    requires IsFragment(s)
    ensures FormatToolOutput(Text(s), isStreaming, prettyJson) == "Receiving data..." <==> isStreaming
    ensures !isStreaming ==> FormatToolOutput(Text(s), isStreaming, prettyJson) == "Invalid output"
  {
  }

  /** `getToolStatusText`, with an absent flag as `None`. */
  function StatusText(isComplete: Option<bool>): string
  {
    match isComplete
    case Some(true) => "Completed"
    case Some(false) => "Running"
    case None => ""
  }

  /** `getToolStatusColor` */
  function StatusColor(isComplete: Option<bool>): string
  {
    match isComplete
    case Some(true) => "text-green"
    case Some(false) => "text-yellow-500"
    case None => "text-muted-foreground"
  }

  /** The three states read differently, both in text and in colour. */
  lemma StatusesAreDistinct(a: Option<bool>, b: Option<bool>)
    ensures StatusText(a) == StatusText(b) <==> a == b
    ensures StatusColor(a) == StatusColor(b) <==> a == b
  {
  }
}
