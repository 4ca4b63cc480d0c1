// The agent helpers of convex/langchain/helpers.ts that decide things
// without calling a model: finding the last message of a kind, listing the
// tools an agent may use (and describing them for the planner prompt), and
// which tools and sub-agents `createAgentWithTools` hands to the agent it
// builds. The tools themselves, the model and the prompt text are inputs.

module AgentTools {
  import opened Strings

  /** The LangChain message classes the agent code tells apart. */
  datatype AgentKind = HumanMessage | AIMessage | ToolMessage | SystemMessage

  /** A message as the agent code reads it: its class, its text and how many tool calls it carries. */
  datatype AgentMessage = AgentMessage(kind: AgentKind, text: string, toolCalls: nat)

  /** The two kinds `getLastMessage` can look for. */
  datatype LastKind = LastAI | LastHuman

  predicate IsKind(m: AgentMessage, kind: LastKind) {
    match kind
    case LastAI => m.kind == AIMessage
    case LastHuman => m.kind == HumanMessage
  }

  /**
   * `getLastMessage`: the greatest index holding a message of the kind asked
   * for, scanning from the end; `None` for `null`.
   */
  method GetLastMessage(messages: seq<AgentMessage>, kind: LastKind) returns (r: Option<(AgentMessage, nat)>)
    ensures r.Some? ==> r.value.1 < |messages| && messages[r.value.1] == r.value.0 && IsKind(r.value.0, kind)
    ensures r.Some? ==> forall j :: r.value.1 < j < |messages| ==> !IsKind(messages[j], kind)
    ensures r.None? <==> forall j :: 0 <= j < |messages| ==> !IsKind(messages[j], kind)
  {
    var i := |messages|;
    while i > 0
      invariant 0 <= i <= |messages|
      invariant forall j :: i <= j < |messages| ==> !IsKind(messages[j], kind)
    {
      i := i - 1;
      var message := messages[i];
      if message.kind == AIMessage && kind == LastAI {
        return Some((message, i));
      }
      if message.kind == HumanMessage && kind == LastHuman {
        return Some((message, i));
      }
    }
    return None;
  }

  /** A tool as the agent sees it; `description` may be missing. */
  datatype Tool = Tool(name: string, description: Option<string>)

  /** `{ name, description }` as pushed into `toolsInfo`. */
  datatype ToolInfo = ToolInfo(name: string, description: string)

  const NoDescription: string := "No description available"

  /** `tool.description || "No description available"`: a missing or empty description is replaced. */
  function DescribeTool(t: Tool): (r: ToolInfo)
    ensures r.name == t.name && r.description != ""
    ensures t.description.Some? && t.description.value != "" ==> r.description == t.description.value
  {
    ToolInfo(t.name, if t.description.Some? && t.description.value != "" then t.description.value else NoDescription)
  }

  function DescribeAll(ts: seq<Tool>): (r: seq<ToolInfo>)
    ensures |r| == |ts|
  {
    if ts == [] then [] else DescribeAll(ts[..|ts| - 1]) + [DescribeTool(ts[|ts| - 1])]
  }

  lemma {:induction false} DescribeAllAt(ts: seq<Tool>, k: nat)
    requires k < |ts|
    ensures DescribeAll(ts)[k] == DescribeTool(ts[k])
  {
    if k < |ts| - 1 {
      DescribeAllAt(ts[..|ts| - 1], k);
    }
  }

  /** What the agent code is given: the chat's flags, the MCP tools, the retrieval tools and the Google tools. */
  datatype ToolSources = ToolSources(
    hasProject: bool, webSearch: bool,
    mcpTools: seq<Tool>, vectorSearch: ToolInfo, webSearchTool: ToolInfo, googleTools: seq<Tool>)

  /** The list `getAvailableTools` builds: MCP tools, vector search, web search, Google tools. */
  function AvailableTools(src: ToolSources): seq<ToolInfo> {
    DescribeAll(src.mcpTools)
    + (if src.hasProject then [src.vectorSearch] else [])
    + (if src.webSearch then [src.webSearchTool] else [])
    + DescribeAll(src.googleTools)
  }

  /** `tools.forEach((tool) => toolsInfo.push(...))`: each tool described, appended in order. */
  method PushDescribed(toolsInfo0: seq<ToolInfo>, tools: seq<Tool>) returns (toolsInfo: seq<ToolInfo>)
    ensures toolsInfo == toolsInfo0 + DescribeAll(tools)
  {
    toolsInfo := toolsInfo0;
    var i := 0;
    while i < |tools|
      invariant 0 <= i <= |tools|
      invariant toolsInfo == toolsInfo0 + DescribeAll(tools[..i])
    {
      assert tools[..i + 1][..i] == tools[..i];
      toolsInfo := toolsInfo + [DescribeTool(tools[i])];
      i := i + 1;
    }
    assert tools[..i] == tools;
  }

  /** `getAvailableTools` */
  method GetAvailableTools(src: ToolSources) returns (toolsInfo: seq<ToolInfo>)
    ensures toolsInfo == AvailableTools(src)
  {
    ghost var vector: seq<ToolInfo> := if src.hasProject then [src.vectorSearch] else [];
    ghost var web: seq<ToolInfo> := if src.webSearch then [src.webSearchTool] else [];
    toolsInfo := PushDescribed([], src.mcpTools);
    assert toolsInfo == DescribeAll(src.mcpTools);
    if src.hasProject {
      toolsInfo := toolsInfo + [src.vectorSearch];
    }
    assert toolsInfo == DescribeAll(src.mcpTools) + vector;
    if src.webSearch {
      toolsInfo := toolsInfo + [src.webSearchTool];
    }
    assert toolsInfo == DescribeAll(src.mcpTools) + vector + web;
    toolsInfo := PushDescribed(toolsInfo, src.googleTools);
  }

  /**
   * Where each source lands in the list: the MCP tools first, then vector
   * search exactly when there is a project, then web search exactly when it
   * is enabled, then the Google tools.
   */
  lemma AvailableToolsLayout(src: ToolSources)
    ensures var r := AvailableTools(src);
      var m := |src.mcpTools|;
      var v := if src.hasProject then 1 else 0;
      var w := if src.webSearch then 1 else 0;
      && |r| == m + v + w + |src.googleTools|
      && (forall k :: 0 <= k < m ==> r[k] == DescribeTool(src.mcpTools[k]))
      && (src.hasProject ==> r[m] == src.vectorSearch)
      && (src.webSearch ==> r[m + v] == src.webSearchTool)
      && (forall k :: 0 <= k < |src.googleTools| ==> r[m + v + w + k] == DescribeTool(src.googleTools[k]))
  {
    DescribeAllEach(src.mcpTools);
    DescribeAllEach(src.googleTools);
    LayoutOf(AvailableTools(src), src, DescribeAll(src.mcpTools), DescribeAll(src.googleTools));
  }

  lemma DescribeAllEach(ts: seq<Tool>)
    ensures forall k :: 0 <= k < |ts| ==> DescribeAll(ts)[k] == DescribeTool(ts[k])
  {
    forall k | 0 <= k < |ts| ensures DescribeAll(ts)[k] == DescribeTool(ts[k]) {
      DescribeAllAt(ts, k);
    }
  }

  /** The layout of the list, given each described part by its entries. */
  lemma LayoutOf(r: seq<ToolInfo>, src: ToolSources, mcp: seq<ToolInfo>, google: seq<ToolInfo>)
    requires |mcp| == |src.mcpTools| && forall k :: 0 <= k < |mcp| ==> mcp[k] == DescribeTool(src.mcpTools[k])
    requires |google| == |src.googleTools| && forall k :: 0 <= k < |google| ==> google[k] == DescribeTool(src.googleTools[k])
    requires r == mcp + (if src.hasProject then [src.vectorSearch] else [])
                  + (if src.webSearch then [src.webSearchTool] else []) + google
    ensures var m := |src.mcpTools|;
      var v := if src.hasProject then 1 else 0;
      var w := if src.webSearch then 1 else 0;
      && |r| == m + v + w + |src.googleTools|
      && (forall k :: 0 <= k < m ==> r[k] == DescribeTool(src.mcpTools[k]))
      && (src.hasProject ==> r[m] == src.vectorSearch)
      && (src.webSearch ==> r[m + v] == src.webSearchTool)
      && (forall k :: 0 <= k < |src.googleTools| ==> r[m + v + w + k] == DescribeTool(src.googleTools[k]))
  {
  }

  const NoToolsText: string := "No tools are currently available."

  /** `- name: description` */
  function ToolLine(t: ToolInfo): string {
    "- " + t.name + ": " + t.description
  }

  function ToolLines(ts: seq<ToolInfo>): (r: seq<string>)
    ensures |r| == |ts|
  {
    if ts == [] then [] else ToolLines(ts[..|ts| - 1]) + [ToolLine(ts[|ts| - 1])]
  }

  /** `getAvailableToolsDescription` */
  function ToolsDescription(ts: seq<ToolInfo>): string {
    if |ts| == 0 then NoToolsText else Join(ToolLines(ts), "\n")
  }

  predicate OneLine(t: ToolInfo) {
    !HasChar(t.name, '\n') && !HasChar(t.description, '\n')
  }

  /**
   * Cut at its line breaks, the description of a non-empty list holds one
   * `- name: description` line per tool, in order, when no name or
   * description spans lines; an empty list is described by the fixed text.
   */
  lemma ToolsDescriptionLines(ts: seq<ToolInfo>)
    requires forall k :: 0 <= k < |ts| ==> OneLine(ts[k])
    ensures ts == [] ==> ToolsDescription(ts) == NoToolsText
    ensures ts != [] ==> Split(ToolsDescription(ts), "\n") == ToolLines(ts)
  {
    if ts != [] {
      var lines := ToolLines(ts);
      forall k | 0 <= k < |lines| ensures !HasChar(lines[k], '\n') {
        ToolLinesAt(ts, k);
        LineHasNoBreak(ts[k]);
      }
      SplitJoin(lines, '\n');
    }
  }

  lemma {:induction false} ToolLinesAt(ts: seq<ToolInfo>, k: nat)
    requires k < |ts|
    ensures ToolLines(ts)[k] == ToolLine(ts[k])
  {
    if k < |ts| - 1 {
      ToolLinesAt(ts[..|ts| - 1], k);
    }
  }

  /** The line of a tool whose name and description do not span lines is one line. */
  lemma LineHasNoBreak(t: ToolInfo)
    requires OneLine(t)
    ensures !HasChar(ToolLine(t), '\n')
  {
    var line := ToolLine(t);
    var n := |t.name|;
    forall i | 0 <= i < |line| ensures line[i] != '\n' {
      if 2 <= i < 2 + n {
        assert line[i] == t.name[i - 2];
      } else if 4 + n <= i {
        assert line[i] == t.description[i - 4 - n];
      }
    }
  }

  /** What `createAgentWithTools` builds: a single ReAct agent with these tools, or a supervisor over named sub-agents. */
  datatype AgentShape =
    | ReactAgent(tools: seq<string>)
    | Supervisor(agents: seq<(string, seq<string>)>)

  datatype Failure = NeedsMcpForConductor

  datatype Result<T> = Ok(value: T) | Err(error: Failure)

  /**
   * The inputs of `createAgentWithTools` that decide the shape: the chat's
   * flags, the names of the MCP tools, the MCP tools grouped by server, and
   * the names of the retrieval and Google tools.
   */
  datatype AgentInputs = AgentInputs(
    conductorMode: bool, hasProject: bool, webSearch: bool,
    mcpTools: seq<string>, groupedTools: seq<(string, seq<string>)>,
    vectorSearch: string, webSearchTool: string, googleTools: seq<string>)

  /**
   * `createAgentWithTools`: without conductor mode, one agent holding the MCP
   * tools, vector search (with a project), web search (when enabled) and the
   * Google tools; in conductor mode, one sub-agent per MCP server, then a web
   * search agent and a vector search agent under the same conditions, and an
   * error when there is no MCP server to conduct.
   */
  function CreateAgent(a: AgentInputs): (r: Result<AgentShape>)
    ensures !a.conductorMode ==> r.Ok? && r.value.ReactAgent?
    ensures a.conductorMode ==> (r.Err? <==> a.groupedTools == [])
    ensures a.conductorMode && r.Ok? ==> r.value.Supervisor?
  {
    if !a.conductorMode then
      Ok(ReactAgent(a.mcpTools
                    + (if a.hasProject then [a.vectorSearch] else [])
                    + (if a.webSearch then [a.webSearchTool] else [])
                    + a.googleTools))
    else if a.groupedTools == [] then
      Err(NeedsMcpForConductor)
    else
      Ok(Supervisor(a.groupedTools
                    + (if a.webSearch then [("WebSearch", [a.webSearchTool])] else [])
                    + (if a.hasProject then [("VectorSearch", [a.vectorSearch])] else [])))
  }

  /**
   * Retrieval is granted only when the chat asks for it: vector search is
   * one of the agent's tools (or has its own sub-agent) exactly when the
   * chat has a project, and web search exactly when it is enabled, provided
   * no other tool carries the same name.
   */
  lemma RetrievalOnlyWhenEnabled(a: AgentInputs)
    requires a.vectorSearch != a.webSearchTool
    requires a.vectorSearch !in a.mcpTools && a.vectorSearch !in a.googleTools
    requires a.webSearchTool !in a.mcpTools && a.webSearchTool !in a.googleTools
    requires forall k :: 0 <= k < |a.groupedTools| ==> a.groupedTools[k].0 != "WebSearch" && a.groupedTools[k].0 != "VectorSearch"
    ensures var r := CreateAgent(a);
      r.Ok? && r.value.ReactAgent? ==>
        (a.vectorSearch in r.value.tools <==> a.hasProject) && (a.webSearchTool in r.value.tools <==> a.webSearch)
    ensures var r := CreateAgent(a);
      r.Ok? && r.value.Supervisor? ==>
        && ((exists k :: 0 <= k < |r.value.agents| && r.value.agents[k].0 == "VectorSearch") <==> a.hasProject)
        && ((exists k :: 0 <= k < |r.value.agents| && r.value.agents[k].0 == "WebSearch") <==> a.webSearch)
  {
    var r := CreateAgent(a);
    if r.Ok? && r.value.Supervisor? {
      var agents := r.value.agents;
      var g := |a.groupedTools|;
      var w := if a.webSearch then 1 else 0;
      if a.hasProject {
        assert agents[g + w].0 == "VectorSearch";
      }
      if a.webSearch {
        assert agents[g].0 == "WebSearch";
      }
    }
  }
}
