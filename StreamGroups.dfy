// The grouping of streamed agent events into AI and tool groups, as done by
// src/components/chat/messages/hooks/useStreamProcessor.ts and again inside
// src/hooks/chats/use-stream.ts: model-stream events accumulate in an AI
// buffer, tool events flush it, a tool start pushes an incomplete tool group
// that the matching tool end completes in place.

module StreamGroups {
  import opened Strings
  import opened Seqs

  const ModelStreamEvent: string := "on_chat_model_stream"
  const ToolStartEvent: string := "on_tool_start"
  const ToolEndEvent: string := "on_tool_end"

  /**
   * The fields of a LangChain stream event that the grouping reads: `run_id`,
   * `name`, the chunk's `content` and `reasoning_content`, and the tool's
   * `input` and `output` (JSON values, kept here as their serialised text).
   */
  datatype StreamEvent = StreamEvent(
    event: string,
    runId: Option<string>,
    name: Option<string>,
    content: Option<string>,
    reasoning: Option<string>,
    input: Option<string>,
    output: Option<string>)

  /** `AIChunkGroup` */
  datatype AIChunk = AIChunk(content: string, reasoning: Option<string>)

  /** `ToolChunkGroup` */
  datatype ToolChunk = ToolChunk(toolName: string, input: Option<string>, output: Option<string>, isComplete: bool)

  datatype ChunkGroup = AIGroup(ai: AIChunk) | ToolGroup(tool: ToolChunk)

  /**
   * The loop state: the groups pushed so far, the AI buffer, and `toolMap`,
   * which holds each pending tool group by its position in `groups` (the
   * source holds the same object in both places).
   */
  datatype FoldState = FoldState(groups: seq<ChunkGroup>, aiBuffer: Option<AIChunk>, toolMap: map<string, nat>)

  /** `chunk.run_id ?? String(chunk.name)` */
  function EventId(e: StreamEvent): string {
    if e.runId.Some? then e.runId.value
    else if e.name.Some? then e.name.value
    else "undefined"
  }

  /** `chunk.name || "Tool"` */
  function ToolName(e: StreamEvent): (r: string)
    ensures r != ""
  {
    if e.name.Some? && e.name.value != "" then e.name.value else "Tool"
  }

  /** The three kinds of event the switch handles. */
  predicate Handled(e: StreamEvent) {
    e.event == ModelStreamEvent || e.event == ToolStartEvent || e.event == ToolEndEvent
  }

  /** Every pending tool is an incomplete tool group, and no two pending ids share one. */
  ghost predicate Wf(st: FoldState) {
    && (forall id :: id in st.toolMap ==>
          st.toolMap[id] < |st.groups| && st.groups[st.toolMap[id]].ToolGroup?
          && !st.groups[st.toolMap[id]].tool.isComplete)
    && (forall a, b :: a in st.toolMap && b in st.toolMap && a != b ==> st.toolMap[a] != st.toolMap[b])
  }

  /** `flushAI` */
  function Flush(st: FoldState): (r: FoldState)
    ensures r.aiBuffer.None? && r.toolMap == st.toolMap
  {
    if st.aiBuffer.Some? then FoldState(st.groups + [AIGroup(st.aiBuffer.value)], None, st.toolMap) else st
  }

  /** `aiBuffer ??= { content: "" }`, then the content is appended and non-empty reasoning too. */
  function Accumulate(buffer: Option<AIChunk>, e: StreamEvent): AIChunk {
    var b := if buffer.Some? then buffer.value else AIChunk("", None);
    var b' := b.(content := b.content + (if e.content.Some? then e.content.value else ""));
    if e.reasoning.Some? && e.reasoning.value != "" then
      b'.(reasoning := Some((if b'.reasoning.Some? then b'.reasoning.value else "") + e.reasoning.value))
    else b'
  }

  /** One round of the event switch. */
  function Step(st: FoldState, e: StreamEvent): (r: FoldState)
    requires Wf(st)
    ensures Wf(r)
  {
    if e.event == ModelStreamEvent then
      st.(aiBuffer := Some(Accumulate(st.aiBuffer, e)))
    else if e.event == ToolStartEvent then
      var f := Flush(st);
      var g := ToolGroup(ToolChunk(ToolName(e), e.input, None, false));
      WfFlush(st);
      WfStart(f, EventId(e), g);
      FoldState(f.groups + [g], None, f.toolMap[EventId(e) := |f.groups|])
    else if e.event == ToolEndEvent then
      var f := Flush(st);
      var id := EventId(e);
      WfFlush(st);
      if id in f.toolMap then
        var at := f.toolMap[id];
        var g := ToolGroup(f.groups[at].tool.(output := e.output, isComplete := true));
        WfEnd(f, id, g);
        FoldState(f.groups[at := g], None, f.toolMap - {id})
      else
        var g := ToolGroup(ToolChunk(ToolName(e), None, e.output, true));
        WfAppend(f, g);
        FoldState(f.groups + [g], None, f.toolMap)
    else
      st
  }

  /** Appending a group keeps every pending tool where it was. */
  lemma WfAppend(f: FoldState, g: ChunkGroup)
    requires Wf(f)
    ensures Wf(FoldState(f.groups + [g], None, f.toolMap))
  {
    var r := FoldState(f.groups + [g], None, f.toolMap);
    assert forall id :: id in f.toolMap ==> r.groups[f.toolMap[id]] == f.groups[f.toolMap[id]];
  }

  /** Flushing the buffer appends at most one group. */
  lemma WfFlush(st: FoldState)
    requires Wf(st)
    ensures Wf(Flush(st))
  {
    if st.aiBuffer.Some? {
      WfAppend(st, AIGroup(st.aiBuffer.value));
    }
  }

  /** A started tool is a new incomplete group, pending under its id. */
  lemma WfStart(f: FoldState, id: string, g: ChunkGroup)
    requires Wf(f) && g.ToolGroup? && !g.tool.isComplete
    ensures Wf(FoldState(f.groups + [g], None, f.toolMap[id := |f.groups|]))
  {
    var r := FoldState(f.groups + [g], None, f.toolMap[id := |f.groups|]);
    assert forall x :: x in f.toolMap ==> r.groups[f.toolMap[x]] == f.groups[f.toolMap[x]];
  }

  /** An ended tool's group is replaced and it is no longer pending. */
  lemma WfEnd(f: FoldState, id: string, g: ChunkGroup)
    requires Wf(f) && id in f.toolMap
    ensures Wf(FoldState(f.groups[f.toolMap[id] := g], None, f.toolMap - {id}))
  {
  }

  /** The state after the events `cs`, starting from no groups, no buffer and no pending tools. */
  function Fold(cs: seq<StreamEvent>): (r: FoldState)
    ensures Wf(r)
  {
    if cs == [] then FoldState([], None, map[])
    else Step(Fold(cs[..|cs| - 1]), cs[|cs| - 1])
  }

  /** The groups after the final flush. */
  function Process(cs: seq<StreamEvent>): seq<ChunkGroup> {
    Flush(Fold(cs)).groups
  }

  lemma FoldAppend(cs: seq<StreamEvent>, e: StreamEvent)
    ensures Fold(cs + [e]) == Step(Fold(cs), e)
  {
    assert (cs + [e])[..|cs|] == cs;
  }

  /** One round of the loop: the `switch` on `chunk.event`. */
  method HandleChunk(groups: seq<ChunkGroup>, aiBuffer: Option<AIChunk>, toolMap: map<string, nat>, chunk: StreamEvent)
    returns (groups': seq<ChunkGroup>, aiBuffer': Option<AIChunk>, toolMap': map<string, nat>)
    requires Wf(FoldState(groups, aiBuffer, toolMap))
    ensures FoldState(groups', aiBuffer', toolMap') == Step(FoldState(groups, aiBuffer, toolMap), chunk)
  {
    groups', aiBuffer', toolMap' := groups, aiBuffer, toolMap;
    var id := EventId(chunk);
    if chunk.event == ModelStreamEvent {
      var buffer := if aiBuffer'.Some? then aiBuffer'.value else AIChunk("", None);
      buffer := buffer.(content := buffer.content + (if chunk.content.Some? then chunk.content.value else ""));
      if chunk.reasoning.Some? && chunk.reasoning.value != "" {
        var sofar := if buffer.reasoning.Some? then buffer.reasoning.value else "";
        buffer := buffer.(reasoning := Some(sofar + chunk.reasoning.value));
      }
      aiBuffer' := Some(buffer);
    } else if chunk.event == ToolStartEvent {
      if aiBuffer'.Some? {
        groups' := groups' + [AIGroup(aiBuffer'.value)];
        aiBuffer' := None;
      }
      groups' := groups' + [ToolGroup(ToolChunk(ToolName(chunk), chunk.input, None, false))];
      toolMap' := toolMap'[id := |groups'| - 1];
    } else if chunk.event == ToolEndEvent {
      if aiBuffer'.Some? {
        groups' := groups' + [AIGroup(aiBuffer'.value)];
        aiBuffer' := None;
      }
      if id in toolMap' {
        var at := toolMap'[id];
        var tool := groups'[at].tool;
        groups' := groups'[at := ToolGroup(tool.(output := chunk.output, isComplete := true))];
        toolMap' := toolMap' - {id};
      } else {
        groups' := groups' + [ToolGroup(ToolChunk(ToolName(chunk), None, chunk.output, true))];
      }
    }
  }

  /**
   * `useStreamProcessor`: no events give no groups; otherwise each event is
   * handled in turn and the pending AI buffer is flushed at the end.
   */
  method GroupChunks(streamChunks: Option<seq<StreamEvent>>) returns (chunkGroups: seq<ChunkGroup>)
    ensures streamChunks.None? ==> chunkGroups == []
    ensures streamChunks.Some? ==> chunkGroups == Process(streamChunks.value)
  {
    if streamChunks.None? {
      return [];
    }
    var chunks := streamChunks.value;
    chunkGroups := [];
    var aiBuffer: Option<AIChunk> := None;
    var toolMap: map<string, nat> := map[];
    for i := 0 to |chunks|
      invariant FoldState(chunkGroups, aiBuffer, toolMap) == Fold(chunks[..i])
    {
      FoldAppend(chunks[..i], chunks[i]);
      assert chunks[..i + 1] == chunks[..i] + [chunks[i]];
      chunkGroups, aiBuffer, toolMap := HandleChunk(chunkGroups, aiBuffer, toolMap, chunks[i]);
    }
    assert chunks[..|chunks|] == chunks;
    if aiBuffer.Some? {
      chunkGroups := chunkGroups + [AIGroup(aiBuffer.value)];
      aiBuffer := None;
    }
  }

  // ---------------------------------------------------------------------------
  // No streamed text is lost

  /** The two texts an AI group carries: its content and its reasoning. */
  datatype Part = ContentPart | ReasoningPart

  function PartOf(a: AIChunk, p: Part): string {
    match p
    case ContentPart => a.content
    case ReasoningPart => if a.reasoning.Some? then a.reasoning.value else ""
  }

  /** The given text of every AI group, in order. */
  function GroupsText(gs: seq<ChunkGroup>, p: Part): string {
    if gs == [] then ""
    else
      var last := gs[|gs| - 1];
      GroupsText(gs[..|gs| - 1], p) + (if last.AIGroup? then PartOf(last.ai, p) else "")
  }

  function BufferText(buffer: Option<AIChunk>, p: Part): string {
    if buffer.Some? then PartOf(buffer.value, p) else ""
  }

  /** What one event contributes to the text: the content or reasoning of a model-stream event, nothing otherwise. */
  function EventText(e: StreamEvent, p: Part): string {
    if e.event != ModelStreamEvent then ""
    else match p
      case ContentPart => if e.content.Some? then e.content.value else ""
      case ReasoningPart => if e.reasoning.Some? then e.reasoning.value else ""
  }

  /** The given text of every model-stream event, in order. */
  function StreamText(cs: seq<StreamEvent>, p: Part): string {
    if cs == [] then "" else StreamText(cs[..|cs| - 1], p) + EventText(cs[|cs| - 1], p)
  }

  lemma GroupsTextAppend(gs: seq<ChunkGroup>, g: ChunkGroup, p: Part)
    ensures GroupsText(gs + [g], p) == GroupsText(gs, p) + (if g.AIGroup? then PartOf(g.ai, p) else "")
  {
    assert (gs + [g])[..|gs|] == gs;
  }

  /** Updating a tool group in place does not change the AI text. */
  lemma {:induction false} GroupsTextToolUpdate(gs: seq<ChunkGroup>, at: nat, t: ToolChunk, p: Part)
    requires at < |gs| && gs[at].ToolGroup?
    ensures GroupsText(gs[at := ToolGroup(t)], p) == GroupsText(gs, p)
  {
    var gs' := gs[at := ToolGroup(t)];
    var n := |gs| - 1;
    if at < n {
      assert gs'[..n] == gs[..n][at := ToolGroup(t)];
      GroupsTextToolUpdate(gs[..n], at, t, p);
    } else {
      assert gs'[..n] == gs[..n];
    }
  }

  /** Accumulating an event into the buffer appends exactly that event's text. */
  lemma AccumulateText(buffer: Option<AIChunk>, e: StreamEvent, p: Part)
    requires e.event == ModelStreamEvent
    ensures PartOf(Accumulate(buffer, e), p) == BufferText(buffer, p) + EventText(e, p)
  {
    if p == ReasoningPart && e.reasoning.Some? && e.reasoning.value == "" {
      assert BufferText(buffer, p) + "" == BufferText(buffer, p);
    }
  }

  lemma FlushText(st: FoldState, p: Part)
    ensures GroupsText(Flush(st).groups, p) == GroupsText(st.groups, p) + BufferText(st.aiBuffer, p)
  {
    if st.aiBuffer.Some? {
      GroupsTextAppend(st.groups, AIGroup(st.aiBuffer.value), p);
    } else {
      assert st.groups == Flush(st).groups;
    }
  }

  /** A tool end that completes a pending tool group adds no AI text after the flush. */
  lemma StepTextCompleted(st: FoldState, e: StreamEvent, p: Part)
    requires Wf(st) && e.event == ToolEndEvent && EventId(e) in st.toolMap
    ensures Step(st, e).aiBuffer.None? && GroupsText(Step(st, e).groups, p) == GroupsText(Flush(st).groups, p)
  {
    var f := Flush(st);
    var at := f.toolMap[EventId(e)];
    GroupsTextToolUpdate(f.groups, at, f.groups[at].tool.(output := e.output, isComplete := true), p);
  }

  /** A tool event that pushes a tool group adds no AI text after the flush. */
  lemma StepTextPushed(st: FoldState, e: StreamEvent, p: Part)
    requires Wf(st) && (e.event == ToolStartEvent || (e.event == ToolEndEvent && EventId(e) !in st.toolMap))
    ensures Step(st, e).aiBuffer.None? && GroupsText(Step(st, e).groups, p) == GroupsText(Flush(st).groups, p)
  {
    var f := Flush(st);
    var r := Step(st, e);
    var g := r.groups[|r.groups| - 1];
    assert r.groups == f.groups + [g] && g.ToolGroup?;
    GroupsTextAppend(f.groups, g, p);
  }

  lemma StepText(st: FoldState, e: StreamEvent, p: Part)
    requires Wf(st)
    ensures GroupsText(Step(st, e).groups, p) + BufferText(Step(st, e).aiBuffer, p)
         == GroupsText(st.groups, p) + BufferText(st.aiBuffer, p) + EventText(e, p)
  {
    if e.event == ModelStreamEvent {
      AccumulateText(st.aiBuffer, e, p);
    } else if e.event == ToolStartEvent || e.event == ToolEndEvent {
      FlushText(st, p);
      if e.event == ToolEndEvent && EventId(e) in st.toolMap {
        StepTextCompleted(st, e, p);
      } else {
        StepTextPushed(st, e, p);
      }
    }
  }


  lemma {:induction false} FoldText(cs: seq<StreamEvent>, p: Part)
    ensures GroupsText(Fold(cs).groups, p) + BufferText(Fold(cs).aiBuffer, p) == StreamText(cs, p)
  {
    if cs != [] {
      var init := cs[..|cs| - 1];
      FoldText(init, p);
      StepText(Fold(init), cs[|cs| - 1], p);
    }
  }

  /**
   * No streamed text is lost: read in order, the AI groups' contents are all
   * the model-stream contents, and their reasoning all the streamed
   * reasoning, because the buffer is flushed at the end.
   */
  lemma NoTextLost(cs: seq<StreamEvent>)
    ensures GroupsText(Process(cs), ContentPart) == StreamText(cs, ContentPart)
    ensures GroupsText(Process(cs), ReasoningPart) == StreamText(cs, ReasoningPart)
  {
    FoldText(cs, ContentPart);
    FlushText(Fold(cs), ContentPart);
    FoldText(cs, ReasoningPart);
    FlushText(Fold(cs), ReasoningPart);
  }

  // ---------------------------------------------------------------------------
  // One AI group per run of model-stream events

  /** Whether the last handled event of `cs` is a model-stream event (later unhandled events do not count). */
  predicate InRun(cs: seq<StreamEvent>) {
    if cs == [] then false
    else
      var last := cs[|cs| - 1];
      if Handled(last) then last.event == ModelStreamEvent else InRun(cs[..|cs| - 1])
  }

  /** The number of runs of consecutive model-stream events, ignoring unhandled events in between. */
  function RunCount(cs: seq<StreamEvent>): nat {
    if cs == [] then 0
    else
      var init := cs[..|cs| - 1];
      RunCount(init) + (if cs[|cs| - 1].event == ModelStreamEvent && !InRun(init) then 1 else 0)
  }

  function AICount(gs: seq<ChunkGroup>): nat {
    if gs == [] then 0 else AICount(gs[..|gs| - 1]) + (if gs[|gs| - 1].AIGroup? then 1 else 0)
  }

  lemma AICountAppend(gs: seq<ChunkGroup>, g: ChunkGroup)
    ensures AICount(gs + [g]) == AICount(gs) + (if g.AIGroup? then 1 else 0)
  {
    assert (gs + [g])[..|gs|] == gs;
  }

  lemma {:induction false} AICountToolUpdate(gs: seq<ChunkGroup>, at: nat, t: ToolChunk)
    requires at < |gs| && gs[at].ToolGroup?
    ensures AICount(gs[at := ToolGroup(t)]) == AICount(gs)
  {
    var gs' := gs[at := ToolGroup(t)];
    var n := |gs| - 1;
    if at < n {
      assert gs'[..n] == gs[..n][at := ToolGroup(t)];
      AICountToolUpdate(gs[..n], at, t);
    } else {
      assert gs'[..n] == gs[..n];
    }
  }

  lemma StepCount(st: FoldState, e: StreamEvent)
    requires Wf(st)
    ensures var r := Step(st, e);
      AICount(r.groups) + (if r.aiBuffer.Some? then 1 else 0) ==
        AICount(st.groups) + (if st.aiBuffer.Some? then 1 else 0)
        + (if e.event == ModelStreamEvent && st.aiBuffer.None? then 1 else 0)
    ensures Handled(e) ==> (Step(st, e).aiBuffer.Some? <==> e.event == ModelStreamEvent)
    ensures !Handled(e) ==> Step(st, e) == st
  {
    var r := Step(st, e);
    var f := Flush(st);
    if e.event == ToolStartEvent || e.event == ToolEndEvent {
      if st.aiBuffer.Some? {
        AICountAppend(st.groups, AIGroup(st.aiBuffer.value));
      }
      var id := EventId(e);
      if e.event == ToolEndEvent && id in f.toolMap {
        var at := f.toolMap[id];
        AICountToolUpdate(f.groups, at, f.groups[at].tool.(output := e.output, isComplete := true));
      } else {
        AICountAppend(f.groups, r.groups[|r.groups| - 1]);
        assert r.groups == f.groups + [r.groups[|r.groups| - 1]];
      }
    }
  }

  lemma {:induction false} FoldCount(cs: seq<StreamEvent>)
    ensures AICount(Fold(cs).groups) + (if Fold(cs).aiBuffer.Some? then 1 else 0) == RunCount(cs)
    ensures Fold(cs).aiBuffer.Some? <==> InRun(cs)
  {
    if cs != [] {
      var init := cs[..|cs| - 1];
      FoldCount(init);
      StepCount(Fold(init), cs[|cs| - 1]);
    }
  }

  /**
   * Consecutive model-stream events accumulate into one AI group: there are
   * exactly as many AI groups as runs of model-stream events uninterrupted by
   * a tool event.
   */
  lemma OneAIGroupPerRun(cs: seq<StreamEvent>)
    ensures AICount(Process(cs)) == RunCount(cs)
  {
    FoldCount(cs);
    var st := Fold(cs);
    if st.aiBuffer.Some? {
      AICountAppend(st.groups, AIGroup(st.aiBuffer.value));
    }
  }

  /**
   * Two AI groups can still sit side by side: a tool end that completes an
   * earlier tool group flushes the buffer without pushing a tool group after it.
   */
  lemma AdjacentAIGroups(start: StreamEvent, a: StreamEvent, end: StreamEvent, b: StreamEvent)
    requires start.event == ToolStartEvent && end.event == ToolEndEvent && EventId(start) == EventId(end)
    requires a.event == ModelStreamEvent && b.event == ModelStreamEvent
    ensures var gs := Process([start, a, end, b]);
      |gs| == 3 && gs[1] == AIGroup(Accumulate(None, a)) && gs[2] == AIGroup(Accumulate(None, b))
  {
    var s0 := FoldState([], None, map[]);
    FoldFour(start, a, end, b);
    var s1 := Step(s0, start);
    assert s1.groups == [ToolGroup(ToolChunk(ToolName(start), start.input, None, false))];
    assert EventId(end) in s1.toolMap && s1.toolMap[EventId(end)] == 0;
    var s2 := Step(s1, a);
    assert s2 == s1.(aiBuffer := Some(Accumulate(None, a)));
    var s3 := Step(s2, end);
    assert |s3.groups| == 2 && s3.groups[1] == AIGroup(Accumulate(None, a)) && s3.aiBuffer.None?;
    var s4 := Step(s3, b);
    assert s4 == s3.(aiBuffer := Some(Accumulate(None, b)));
  }

  /** Four events folded one after another from the empty state. */
  lemma FoldFour(e1: StreamEvent, e2: StreamEvent, e3: StreamEvent, e4: StreamEvent)
    ensures Fold([e1, e2, e3, e4]) == Step(Step(Step(Step(FoldState([], None, map[]), e1), e2), e3), e4)
  {
    FoldAppend([], e1);
    assert [] + [e1] == [e1];
    FoldAppend([e1], e2);
    assert [e1] + [e2] == [e1, e2];
    FoldAppend([e1, e2], e3);
    assert [e1, e2] + [e3] == [e1, e2, e3];
    FoldAppend([e1, e2, e3], e4);
    assert [e1, e2, e3] + [e4] == [e1, e2, e3, e4];
  }

  // ---------------------------------------------------------------------------
  // Unhandled events and tool groups

  /** Events other than the three handled kinds change nothing: dropping them gives the same groups. */
  lemma {:induction false} UnhandledIgnored(cs: seq<StreamEvent>)
    ensures Fold(Filter(cs, Handled)) == Fold(cs)
    ensures Process(Filter(cs, Handled)) == Process(cs)
  {
    if cs != [] {
      var init := cs[..|cs| - 1];
      var e := cs[|cs| - 1];
      assert cs == init + [e];
      UnhandledIgnored(init);
      FilterAppend(init, e, Handled);
      FoldAppend(init, e);
      if Handled(e) {
        FoldAppend(Filter(init, Handled), e);
      } else {
        assert Step(Fold(init), e) == Fold(init);
        assert Fold(cs) == Fold(init);
        assert Filter(cs, Handled) == Filter(init, Handled) + [] == Filter(init, Handled);
      }
    }
  }

  /** A tool start flushes the buffer, then appends an incomplete tool group and makes it the pending group of its id. */
  lemma ToolStartPends(st: FoldState, e: StreamEvent)
    requires Wf(st) && e.event == ToolStartEvent
    ensures var r := Step(st, e); var f := Flush(st);
      && r.groups == f.groups + [ToolGroup(ToolChunk(ToolName(e), e.input, None, false))]
      && GroupsText(f.groups, ContentPart) == GroupsText(st.groups, ContentPart) + BufferText(st.aiBuffer, ContentPart)
      && EventId(e) in r.toolMap && r.toolMap[EventId(e)] == |r.groups| - 1
      && r.aiBuffer.None?
  {
    FlushText(st, ContentPart);
  }

  /**
   * A tool end with a pending id completes that group in place: it was an
   * incomplete tool group, it receives the output and is marked complete,
   * every other group stays as it was and the id is no longer pending. With
   * no pending id, a complete tool group without input is appended.
   */
  lemma ToolEndCompletes(st: FoldState, e: StreamEvent)
    requires Wf(st) && e.event == ToolEndEvent
    ensures var r := Step(st, e); var f := Flush(st); var id := EventId(e);
      && r.aiBuffer.None?
      && (id in f.toolMap ==>
            var at := f.toolMap[id];
            && |r.groups| == |f.groups|
            && f.groups[at].ToolGroup? && !f.groups[at].tool.isComplete
            && r.groups[at] == ToolGroup(f.groups[at].tool.(output := e.output, isComplete := true))
            && (forall j :: 0 <= j < |f.groups| && j != at ==> r.groups[j] == f.groups[j])
            && id !in r.toolMap)
      && (id !in f.toolMap ==>
            r.groups == f.groups + [ToolGroup(ToolChunk(ToolName(e), None, e.output, true))]
            && r.toolMap == st.toolMap)
  {
  }

  // ---------------------------------------------------------------------------
  // The `useStream` hook of src/hooks/chats/use-stream.ts

  /** A stored chunk document: the serialised events it carries (parsed here) and its `_creationTime`. */
  datatype ChunkDoc = ChunkDoc(chunks: seq<StreamEvent>, creationTime: int)

  /** The events of a page of chunk documents, document by document. */
  function PageEvents(page: seq<ChunkDoc>): seq<StreamEvent> {
    Concat(seq(|page|, k requires 0 <= k < |page| => page[k].chunks))
  }

  lemma PageEventsAppend(page: seq<ChunkDoc>, d: ChunkDoc)
    ensures PageEvents(page + [d]) == PageEvents(page) + d.chunks
  {
    var docs := seq(|page|, k requires 0 <= k < |page| => page[k].chunks);
    assert seq(|page + [d]|, k requires 0 <= k < |page + [d]| => (page + [d])[k].chunks) == docs + [d.chunks];
    ConcatAppend(docs, d.chunks);
  }

  /** The two nested `forEach` loops that collect a page's events. */
  method ParsePage(page: seq<ChunkDoc>) returns (events: seq<StreamEvent>)
    ensures events == PageEvents(page)
  {
    events := [];
    for k := 0 to |page|
      invariant events == PageEvents(page[..k])
    {
      PageEventsAppend(page[..k], page[k]);
      assert page[..k + 1] == page[..k] + [page[k]];
      for c := 0 to |page[k].chunks|
        invariant events == PageEvents(page[..k]) + page[k].chunks[..c]
      {
        assert page[k].chunks[..c + 1] == page[k].chunks[..c] + [page[k].chunks[c]];
        events := events + [page[k].chunks[c]];
      }
      assert page[k].chunks[..|page[k].chunks|] == page[k].chunks;
    }
    assert page[..|page|] == page;
  }

  /** The hook's state: the chat it follows, the events received so far and the time of the last chunk document read. */
  class ChatStream {
    var chatId: string
    var chunks: seq<StreamEvent>
    var lastTime: Option<int>

    constructor (chatId: string)
      ensures this.chatId == chatId && chunks == [] && lastTime == None
    {
      this.chatId := chatId;
      chunks := [];
      lastTime := None;
    }

    /** Following another chat forgets the events and the last-chunk time. */
    method ChangeChat(newChatId: string)
      modifies this
      ensures chatId == newChatId && chunks == [] && lastTime == None
    {
      chatId := newChatId;
      lastTime := None;
      chunks := [];
    }

    /**
     * A page of chunk documents received while polling: a non-empty page
     * appends all its events, in order, and records the creation time of
     * its last document; an empty page changes nothing.
     */
    method ReceivePage(page: seq<ChunkDoc>)
      modifies this
      ensures chatId == old(chatId)
      ensures page == [] ==> chunks == old(chunks) && lastTime == old(lastTime)
      ensures page != [] ==>
        chunks == old(chunks) + PageEvents(page) && lastTime == Some(page[|page| - 1].creationTime)
    {
      if |page| > 0 {
        var events := ParsePage(page);
        chunks := chunks + events;
        lastTime := Some(page[|page| - 1].creationTime);
      }
    }

    /** The grouped events, computed by the same fold as `useStreamProcessor` over the events received so far. */
    method ChunkGroups() returns (groups: seq<ChunkGroup>)
      ensures groups == Process(chunks)
    {
      groups := GroupChunks(Some(chunks));
    }
  }
}
