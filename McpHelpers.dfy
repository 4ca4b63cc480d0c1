// MCP tool names and template lookups (src/hooks/chats/use-mcp-helpers.ts).
// The template table of src/components/chat/panels/mcp/templates.ts is a
// parameter; case conversion is ASCII.

module McpHelpers {
  import opened Strings

  /** The fields of an `McpTemplate` these helpers read. */
  datatype McpTemplate = McpTemplate(template: Option<string>, name: string, image: string, description: string)

  const DefaultAvatar: string := "https://avatars.githubusercontent.com/u/182288589?s=200&v=4"

  /** `MCP_TEMPLATES.find(pred)`: the first matching template, none when no template matches. */
  function FindFirst(templates: seq<McpTemplate>, key: string, byName: bool): (r: Option<McpTemplate>)
    ensures r.Some? ==> exists i :: 0 <= i < |templates| && templates[i] == r.value && Matches(r.value, key, byName)
                                   && forall j :: 0 <= j < i ==> !Matches(templates[j], key, byName)
    ensures r.None? ==> forall t :: t in templates ==> !Matches(t, key, byName)
  {
    if templates == [] then None
    else if Matches(templates[0], key, byName) then Some(templates[0])
    else
      var r := FindFirst(templates[1..], key, byName);
      if r.Some? then
        var i :| 0 <= i < |templates[1..]| && templates[1..][i] == r.value && Matches(r.value, key, byName)
                 && forall j :: 0 <= j < i ==> !Matches(templates[1..][j], key, byName);
        assert templates[i + 1] == r.value;
        assert forall j :: 0 < j < i + 1 ==> templates[j] == templates[1..][j - 1];
        r
      else
        assert forall t :: t in templates ==> t == templates[0] || t in templates[1..];
        r
  }

  /**
   * By key (`findMcpTemplate`): the template key equals `key`. By name
   * (`findMcpTemplateByName`): the lower-cased template key or name equals
   * the lower-cased `key`, as it is or with `_` turned into `-`.
   */
  predicate Matches(t: McpTemplate, key: string, byName: bool) {
    if !byName then t.template == Some(key)
    else
      var lowerName := ToLower(key);
      var normalizedName := ReplaceChar(lowerName, '_', '-');
      (t.template.Some? && (ToLower(t.template.value) == lowerName || ToLower(t.template.value) == normalizedName))
      || ToLower(t.name) == lowerName || ToLower(t.name) == normalizedName
  }

  function FindMcpTemplate(templates: seq<McpTemplate>, templateKey: string): Option<McpTemplate>
  {
    FindFirst(templates, templateKey, false)
  }

  function FindMcpTemplateByName(templates: seq<McpTemplate>, name: string): Option<McpTemplate>
  {
    FindFirst(templates, name, true)
  }

  /** Lookup by name ignores the case of the name asked for. */
  lemma FindByNameIgnoresCase(templates: seq<McpTemplate>, a: string, b: string)
    requires ToLower(a) == ToLower(b)
    ensures FindMcpTemplateByName(templates, a) == FindMcpTemplateByName(templates, b)
  {
    forall t ensures Matches(t, a, true) == Matches(t, b, true) { }
    SameMatchesSameFind(templates, a, b);
  }

  /**
   * A template whose name, or key, is the name asked for in lower case with
   * every `_` turned into `-` is found: lookup by name finds `my-server`
   * when asked for `My_Server`.
   */
  lemma FindByNameHyphenated(templates: seq<McpTemplate>, t: McpTemplate, a: string)
    requires t in templates
    requires ToLower(t.name) == ReplaceChar(ToLower(a), '_', '-')
             || (t.template.Some? && ToLower(t.template.value) == ReplaceChar(ToLower(a), '_', '-'))
    ensures FindMcpTemplateByName(templates, a).Some?
  {
    assert Matches(t, a, true);
  }

  /**
   * Only the name asked for is normalised: a template named `x_y` is found
   * by `x_y` but not by `x-y`.
   */
  lemma UnderscoreNameNotFoundByHyphen()
    ensures FindMcpTemplateByName([McpTemplate(None, "x_y", "", "")], "x_y").Some?
    ensures FindMcpTemplateByName([McpTemplate(None, "x_y", "", "")], "x-y").None?
  {
    var t := McpTemplate(None, "x_y", "", "");
    var under, hyphen := "x_y", "x-y";
    LowerWithoutCapitals(under);
    LowerWithoutCapitals(hyphen);
    ReplaceAbsentChar(hyphen, '_', '-');
    assert under[1] != hyphen[1];
    assert Matches(t, under, true);
    assert !Matches(t, hyphen, true);
  }

  lemma LowerWithoutCapitals(s: string)
    requires forall c :: c in s ==> !('A' <= c <= 'Z')
    ensures ToLower(s) == s
  {
    forall i | 0 <= i < |s| ensures ToLower(s)[i] == s[i] {
      assert s[i] in s;
    }
  }

  lemma ReplaceAbsentChar(s: string, a: char, b: char)
    requires a !in s
    ensures ReplaceChar(s, a, b) == s
  {
    assert forall i :: 0 <= i < |s| ==> ReplaceChar(s, a, b)[i] == s[i];
  }

  lemma {:induction false} SameMatchesSameFind(templates: seq<McpTemplate>, a: string, b: string)
    requires forall t :: Matches(t, a, true) == Matches(t, b, true)
    ensures FindFirst(templates, a, true) == FindFirst(templates, b, true)
  {
    if templates != [] {
      SameMatchesSameFind(templates[1..], a, b);
    }
  }

  /** `getMcpLogoUrl`, with an absent key as `None`: the template's image, or the default avatar. */
  function GetMcpLogoUrl(templates: seq<McpTemplate>, templateKey: Option<string>): (r: string)
    ensures templateKey.None? || templateKey.value == [] ==> r == DefaultAvatar
    ensures templateKey.Some? && templateKey.value != [] && FindMcpTemplate(templates, templateKey.value).None?
            ==> r == DefaultAvatar
    ensures r != DefaultAvatar ==> exists t :: t in templates && t.template == templateKey && t.image == r
  {
    if templateKey.None? || templateKey.value == [] then DefaultAvatar
    else
      match FindMcpTemplate(templates, templateKey.value)
      case Some(t) => t.image
      case None => DefaultAvatar
  }

  datatype ParsedMcpTool = ParsedMcpTool(displayName: string, toolName: string, icon: Option<string>)

  /**
   * `parseMcpToolName`: for `mcp__<server>__<tool...>` the display name of
   * the server's template (or the lower-cased server) and the tool name;
   * nothing for any other name.
   */
  function ParseMcpToolName(templates: seq<McpTemplate>, messageName: string): (r: Option<ParsedMcpTool>)
    ensures r.Some? <==> StartsWith(messageName, "mcp__") && |Split(messageName, "__")| >= 3
  {
    if !StartsWith(messageName, "mcp__") then None
    else
      var parts := Split(messageName, "__");
      if |parts| < 3 then None
      else
        var mcpName := ToLower(parts[1]);
        var toolName := Join(parts[2..], "__");
        var template := FindMcpTemplateByName(templates, mcpName);
        Some(ParsedMcpTool(
          if template.Some? && template.value.name != [] then template.value.name else mcpName,
          toolName,
          if template.Some? then Some(template.value.image) else None))
  }

  /** The tool name is everything after the server's `__`, kept exactly. */
  lemma ParsedToolNameIsSuffix(templates: seq<McpTemplate>, messageName: string)
    requires ParseMcpToolName(templates, messageName).Some?
    ensures var parts := Split(messageName, "__");
            messageName == "mcp__" + parts[1] + "__" + ParseMcpToolName(templates, messageName).value.toolName
  {
    var parts := Split(messageName, "__");
    assert ParseMcpToolName(templates, messageName).value.toolName == Join(parts[2..], "__");
    McpPrefixIsFirstPart(messageName);
    JoinSplit(messageName, "__");
    JoinFirstTwo(parts, "__");
  }

  lemma JoinFirstTwo(parts: seq<string>, sep: string)
    requires |parts| >= 3
    ensures Join(parts, sep) == parts[0] + sep + parts[1] + sep + Join(parts[2..], sep)
  {
    assert parts[1..][1..] == parts[2..];
  }

  /** A name starting with `mcp__` splits first into `mcp`. */
  lemma McpPrefixIsFirstPart(messageName: string)
    requires StartsWith(messageName, "mcp__")
    ensures Split(messageName, "__")[0] == "mcp"
  {
    assert messageName[..5] == "mcp__";
    forall j | 0 <= j < 3 ensures !OccursAt(messageName, "__", j) {
      assert messageName[j] == messageName[..5][j] && messageName[j..j + 2][0] == messageName[j];
    }
    assert OccursAt(messageName, "__", 3) by { assert messageName[3..5] == messageName[..5][3..5]; }
    IndexOfFirst(messageName, "__", 3);
    assert messageName[..3] == "mcp";
  }

  /** The display name is the matching template's name when it has one, else the lower-cased server. */
  lemma ParsedDisplayName(templates: seq<McpTemplate>, messageName: string)
    requires ParseMcpToolName(templates, messageName).Some?
    ensures var server := ToLower(Split(messageName, "__")[1]);
            var found := FindMcpTemplateByName(templates, server);
            var shown := ParseMcpToolName(templates, messageName).value.displayName;
            && (found.Some? && found.value.name != [] ==> shown == found.value.name)
            && (found.None? || found.value.name == [] ==> shown == server)
  {
  }

  datatype McpDisplayInfo = McpDisplayInfo(name: string, icon: string, description: Option<string>)

  /** `getMcpDisplayInfo`: the template's name, image and description, falling back to the key and the default avatar. */
  function GetMcpDisplayInfo(templates: seq<McpTemplate>, templateKey: string): (r: McpDisplayInfo)
    ensures FindMcpTemplate(templates, templateKey).None? ==> r == McpDisplayInfo(templateKey, DefaultAvatar, None)
    ensures r.name != [] || templateKey == []
    ensures r.icon != [] && r.description.Some? == FindMcpTemplate(templates, templateKey).Some?
  {
    match FindMcpTemplate(templates, templateKey)
    case None => McpDisplayInfo(templateKey, DefaultAvatar, None)
    case Some(t) =>
      McpDisplayInfo(if t.name != [] then t.name else templateKey,
                     if t.image != [] then t.image else DefaultAvatar,
                     Some(t.description))
  }
}
