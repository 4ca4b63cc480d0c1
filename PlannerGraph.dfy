// The control logic of the agent graph in convex/langchain/agent.ts: which
// node a run starts at, how the plan-executing node consumes the head of the
// plan, how the replanner's answer updates the state, when the planning
// loop ends, and the filter that keeps tool traffic out of the replanner's
// view. Model calls are inputs: `run` stands for the agent answering one
// task, `toJson` for `JSON.stringify`.

module PlannerGraph {
  import opened Strings
  import opened AgentTools

  // ---------------------------------------------------------------------
  // Routing

  datatype Route = Simple | Planner | BaseAgent

  /** `shouldPlanOrAgentOrSimple` */
  function RouteStart(modelSupportsTools: bool, orchestratorMode: bool): (r: Route)
    ensures !modelSupportsTools ==> r == Simple
    ensures modelSupportsTools ==> (r == Planner <==> orchestratorMode)
    ensures modelSupportsTools ==> r != Simple
  {
    if !modelSupportsTools then Simple
    else if orchestratorMode then Planner
    else BaseAgent
  }

  // ---------------------------------------------------------------------
  // filterMessagesForReplanning

  const RecentWindow: nat := 20

  /** `messages.slice(-20)` */
  function Recent<T>(messages: seq<T>): (r: seq<T>)
    ensures |r| <= RecentWindow && |r| <= |messages|
    ensures r == messages[|messages| - |r|..]
    ensures |messages| <= RecentWindow ==> r == messages
  {
    if |messages| <= RecentWindow then messages else messages[|messages| - RecentWindow..]
  }

  /**
   * The skip flag on reaching a message, read forward over what follows it:
   * it is set when the first tool or AI message after it is a tool message.
   */
  predicate ToolPending(after: seq<AgentMessage>)
  {
    if after == [] then false
    else if after[0].kind == ToolMessage then true
    else if after[0].kind == AIMessage then false
    else ToolPending(after[1..])
  }

  /**
   * Whether message `i` survives: tool messages never do, and an AI message
   * with tool calls does not when a tool message answers it (comes after it
   * with no AI message in between).
   */
  predicate Survives(ms: seq<AgentMessage>, i: nat)
    requires i < |ms|
  {
    && ms[i].kind != ToolMessage
    && !(ms[i].kind == AIMessage && ms[i].toolCalls > 0 && ToolPending(ms[i + 1..]))
  }

  /** The surviving messages from index `i` on, in their order. */
  function SurvivorsFrom(ms: seq<AgentMessage>, i: nat): seq<AgentMessage>
    requires i <= |ms|
    decreases |ms| - i
  {
    if i == |ms| then []
    else (if Survives(ms, i) then [ms[i]] else []) + SurvivorsFrom(ms, i + 1)
  }

  /** The messages the replanner sees. */
  function Replanning(messages: seq<AgentMessage>): seq<AgentMessage> {
    SurvivorsFrom(Recent(messages), 0)
  }

  /**
   * `filterMessagesForReplanning`: a backward scan over the last twenty
   * messages with the skip flag, putting each kept message in front.
   */
  method FilterMessagesForReplanning(messages: seq<AgentMessage>) returns (filtered: seq<AgentMessage>)
    ensures filtered == Replanning(messages)
  {
    var recent := Recent(messages);
    filtered := [];
    var skipNextAIMessage := false;
    var i := |recent|;
    while i > 0
      invariant 0 <= i <= |recent|
      invariant filtered == SurvivorsFrom(recent, i)
      invariant skipNextAIMessage == ToolPending(recent[i..])
    {
      i := i - 1;
      var message := recent[i];
      assert recent[i..][0] == message && recent[i..][1..] == recent[i + 1..];
      if message.kind == ToolMessage {
        skipNextAIMessage := true;
        continue;
      }
      if message.kind == AIMessage && skipNextAIMessage {
        if message.toolCalls > 0 {
          skipNextAIMessage := false;
          continue;
        }
        skipNextAIMessage := false;
      } else if message.kind == AIMessage {
        skipNextAIMessage := false;
      }
      filtered := [message] + filtered;
    }
  }

  /** What survives is a subset of what was there: each survivor is one of the messages from `i` on, and none is a tool message. */
  lemma {:induction false} SurvivorsSound(ms: seq<AgentMessage>, i: nat)
    requires i <= |ms|
    ensures |SurvivorsFrom(ms, i)| <= |ms| - i
    ensures forall m :: m in SurvivorsFrom(ms, i) ==> m in ms[i..] && m.kind != ToolMessage
    decreases |ms| - i
  {
    if i < |ms| {
      SurvivorsSound(ms, i + 1);
      assert ms[i..] == [ms[i]] + ms[i + 1..];
    }
  }

  /** The replanner sees at most twenty messages, none of them a tool message, all from the conversation. */
  lemma ReplanningBounded(messages: seq<AgentMessage>)
    ensures |Replanning(messages)| <= RecentWindow
    ensures forall m :: m in Replanning(messages) ==> m in messages && m.kind != ToolMessage
  {
    var recent := Recent(messages);
    SurvivorsSound(recent, 0);
    assert recent[0..] == recent;
  }

  /** The positions from `i` on whose message survives, ascending. */
  function SurvivingPositions(ms: seq<AgentMessage>, i: nat): seq<nat>
    requires i <= |ms|
    decreases |ms| - i
  {
    if i == |ms| then []
    else (if Survives(ms, i) then [i] else []) + SurvivingPositions(ms, i + 1)
  }

  /**
   * The survivors are exactly the messages at the surviving positions, in
   * the order of those positions: the filter keeps order and drops nothing
   * that survives.
   */
  lemma {:induction false} SurvivorsInOrder(ms: seq<AgentMessage>, i: nat)
    requires i <= |ms|
    ensures var pos := SurvivingPositions(ms, i);
      var r := SurvivorsFrom(ms, i);
      && |pos| == |r|
      && (forall k :: 0 <= k < |pos| ==> i <= pos[k] < |ms| && Survives(ms, pos[k]) && r[k] == ms[pos[k]])
      && (forall k, l :: 0 <= k < l < |pos| ==> pos[k] < pos[l])
      && (forall j :: i <= j < |ms| && Survives(ms, j) ==> j in pos)
    decreases |ms| - i
  {
    if i < |ms| {
      SurvivorsInOrder(ms, i + 1);
    }
  }

  /** A tool message after position `j` with no AI message between them leaves the flag set at `j`. */
  lemma {:induction false} PendingUntilTool(ms: seq<AgentMessage>, j: nat, k: nat)
    requires j < k < |ms| && ms[k].kind == ToolMessage
    requires forall l :: j < l < k ==> ms[l].kind != AIMessage && ms[l].kind != ToolMessage
    ensures ToolPending(ms[j + 1..])
    decreases k - j
  {
    var after := ms[j + 1..];
    assert after[0] == ms[j + 1];
    if j + 1 < k {
      PendingUntilTool(ms, j + 1, k);
      assert after[1..] == ms[j + 2..];
    }
  }

  /**
   * The AI message that a dropped tool message answers is dropped too: the
   * nearest AI message before a tool message, when it carries tool calls
   * and nothing but non-AI, non-tool messages stand between them.
   */
  lemma AnsweredCallDropped(ms: seq<AgentMessage>, j: nat, k: nat)
    requires j < k < |ms| && ms[k].kind == ToolMessage
    requires ms[j].kind == AIMessage && ms[j].toolCalls > 0
    requires forall l :: j < l < k ==> ms[l].kind != AIMessage && ms[l].kind != ToolMessage
    ensures !Survives(ms, j) && !Survives(ms, k)
  {
    PendingUntilTool(ms, j, k);
  }

  /** A human message always survives, and so does an AI message without tool calls. */
  lemma PlainMessagesSurvive(ms: seq<AgentMessage>, i: nat)
    requires i < |ms|
    requires ms[i].kind == HumanMessage || (ms[i].kind == AIMessage && ms[i].toolCalls == 0)
    ensures Survives(ms, i)
  {
  }

  // ---------------------------------------------------------------------
  // The plan

  /** `{ step, context }` of a plan step. */
  datatype PlanStep = PlanStep(step: string, context: string)

  /** A plan item: one step, or steps run in parallel. */
  datatype PlanItem = Single(data: PlanStep) | Parallel(steps: seq<PlanStep>)

  /** `[step, messages]`: a finished step and the messages its agent produced. */
  datatype CompletedStep = CompletedStep(step: string, messages: seq<AgentMessage>)

  /** The part of the graph state a node updates; `None` leaves a field as it was. */
  datatype Update = Update(
    messages: Option<seq<AgentMessage>>,
    plan: Option<seq<PlanItem>>,
    pastSteps: Option<seq<CompletedStep>>)

  /** The prompt the plan-executing agent receives for a step. */
  function TaskPrompt(s: PlanStep): string {
    "Task: " + s.step + "\nContext: " + s.context
  }

  /** `response.messages.slice(1)`: what the agent added after the prompt message. */
  function AfterFirst<T>(s: seq<T>): seq<T> {
    if s == [] then [] else s[1..]
  }

  /** `invoke` on one step: the agent's answer to the step prompt, minus the prompt message. */
  function RunStep(s: PlanStep, run: string -> seq<AgentMessage>): CompletedStep {
    CompletedStep(s.step, AfterFirst(run(TaskPrompt(s))))
  }

  function RunAll(steps: seq<PlanStep>, run: string -> seq<AgentMessage>): (r: seq<CompletedStep>)
    ensures |r| == |steps|
  {
    if steps == [] then [] else RunAll(steps[..|steps| - 1], run) + [RunStep(steps[|steps| - 1], run)]
  }

  lemma {:induction false} RunAllAt(steps: seq<PlanStep>, run: string -> seq<AgentMessage>, k: nat)
    requires k < |steps|
    ensures RunAll(steps, run)[k] == RunStep(steps[k], run)
  {
    if k < |steps| - 1 {
      RunAllAt(steps[..|steps| - 1], run, k);
    }
  }

  /**
   * `plannerAgent`: with no plan, no update; otherwise the head of the plan
   * is run (one step, or each parallel step) and dropped, and its completed
   * steps are appended to the past steps.
   */
  function PlannerAgent(plan: Option<seq<PlanItem>>, pastSteps: Option<seq<CompletedStep>>,
                        run: string -> seq<AgentMessage>): (r: Update)
    ensures r.messages.None?
    ensures plan.None? || plan.value == [] ==> r == Update(None, None, None)
  {
    if plan.None? || plan.value == [] then Update(None, None, None)
    else
      var past := if pastSteps.Some? then pastSteps.value else [];
      var done := match plan.value[0]
        case Single(s) => [RunStep(s, run)]
        case Parallel(steps) => RunAll(steps, run);
      Update(None, Some(plan.value[1..]), Some(past + done))
  }

  /**
   * One run of the plan-executing node consumes exactly the head of the
   * plan and keeps the past steps as a prefix, adding one completed step
   * for a single item and one per sub-step, in order, for a parallel item.
   */
  lemma PlannerAgentConsumesHead(plan: seq<PlanItem>, pastSteps: seq<CompletedStep>, run: string -> seq<AgentMessage>)
    requires plan != []
    ensures var r := PlannerAgent(Some(plan), Some(pastSteps), run);
      && r.plan == Some(plan[1..]) && r.pastSteps.Some?
      && |r.pastSteps.value| == |pastSteps| + (if plan[0].Single? then 1 else |plan[0].steps|)
      && r.pastSteps.value[..|pastSteps|] == pastSteps
      && (plan[0].Single? ==> r.pastSteps.value[|pastSteps|].step == plan[0].data.step)
      && (plan[0].Parallel? ==> forall k :: 0 <= k < |plan[0].steps| ==>
            r.pastSteps.value[|pastSteps| + k].step == plan[0].steps[k].step)
  {
    var r := PlannerAgent(Some(plan), Some(pastSteps), run);
    if plan[0].Parallel? {
      var steps := plan[0].steps;
      forall k | 0 <= k < |steps| ensures r.pastSteps.value[|pastSteps| + k].step == steps[k].step {
        RunAllAt(steps, run, k);
      }
    }
  }

  /** Each run of the plan-executing node shortens a non-empty plan by one item, so the loop ends unless the replanner adds work. */
  lemma PlannerAgentShortens(plan: seq<PlanItem>, pastSteps: Option<seq<CompletedStep>>, run: string -> seq<AgentMessage>)
    requires plan != []
    ensures var r := PlannerAgent(Some(plan), pastSteps, run);
      r.plan.Some? && |r.plan.value| == |plan| - 1
  {
  }

  // ---------------------------------------------------------------------
  // The replanner

  /** The shapes of `response.data` when the replanner answers the user. */
  datatype RawData =
    | RawString(text: string)
    | RawArray(items: seq<RawData>)
    | RawObject(context: Option<string>, step: Option<string>, data: Option<RawData>)
    | RawOther(shown: string)

  /** `first?.data?.context ?? first?.data?.step ?? JSON.stringify(first ?? raw)` for an array answer. */
  function ArrayText(raw: RawData, items: seq<RawData>, toJson: RawData -> string): string {
    if items == [] then toJson(raw)
    else
      var first := items[0];
      var inner := if first.RawObject? && first.data.Some? && first.data.value.RawObject? then Some(first.data.value) else None;
      if inner.Some? && inner.value.context.Some? then inner.value.context.value
      else if inner.Some? && inner.value.step.Some? then inner.value.step.value
      else toJson(first)
  }

  /** The final answer's text, whatever shape the answer came in. */
  function FinalText(raw: RawData, toJson: RawData -> string): string {
    match raw
    case RawString(s) => s
    case RawArray(items) => ArrayText(raw, items, toJson)
    case RawObject(context, step, _) =>
      if context.Some? then context.value else if step.Some? then step.value else toJson(raw)
    case RawOther(shown) => shown
  }

  /** The replanner's structured answer. */
  datatype ReplannerResponse =
    | RespondToUser(data: RawData)
    | ContinuePlanning(plan: seq<PlanItem>)
    | UnknownResponse(responseType: string)

  datatype ReplanError = InvalidReplannerResponse

  datatype ReplanResult = Replanned(update: Update) | ReplanFailed(error: ReplanError)

  /**
   * The replanner's handling of its answer: answering the user ends the
   * plan (both the plan and the past steps are cleared) with one AI message,
   * continuing replaces the plan, anything else fails.
   */
  function ApplyReplan(response: ReplannerResponse, toJson: RawData -> string): (r: ReplanResult)
    ensures response.RespondToUser? ==>
      r.Replanned? && r.update.plan == Some([]) && r.update.pastSteps == Some([])
      && r.update.messages.Some? && |r.update.messages.value| == 1 && r.update.messages.value[0].kind == AIMessage
    ensures response.ContinuePlanning? ==> r == Replanned(Update(None, Some(response.plan), None))
    ensures response.UnknownResponse? <==> r.ReplanFailed?
  {
    match response
    case RespondToUser(data) =>
      Replanned(Update(Some([AgentMessage(AIMessage, FinalText(data, toJson), 0)]), Some([]), Some([])))
    case ContinuePlanning(plan) => Replanned(Update(None, Some(plan), None))
    case UnknownResponse(_) => ReplanFailed(InvalidReplannerResponse)
  }

  const RecentSteps: nat := 10

  /** `pastSteps.slice(-10).flatMap(...)`: each of the last ten steps as a human message, then its filtered messages. */
  function ReplanPastSteps(pastSteps: seq<CompletedStep>): seq<AgentMessage> {
    StepsView(if |pastSteps| <= RecentSteps then pastSteps else pastSteps[|pastSteps| - RecentSteps..])
  }

  function StepsView(steps: seq<CompletedStep>): seq<AgentMessage> {
    if steps == [] then []
    else
      var last := steps[|steps| - 1];
      StepsView(steps[..|steps| - 1]) + ([AgentMessage(HumanMessage, last.step, 0)] + Replanning(last.messages))
  }

  /** The past steps the replanner is shown hold no tool message either. */
  lemma {:induction false} StepsViewNoTools(steps: seq<CompletedStep>)
    ensures forall m :: m in StepsView(steps) ==> m.kind != ToolMessage
  {
    if steps != [] {
      StepsViewNoTools(steps[..|steps| - 1]);
      ReplanningBounded(steps[|steps| - 1].messages);
    }
  }

  // ---------------------------------------------------------------------
  // The end of the loop

  /** `shouldEndPlanner`: the loop ends exactly when no plan is left. */
  function ShouldEndPlanner(plan: Option<seq<PlanItem>>): (r: string)
    ensures r == "true" <==> plan.None? || plan.value == []
    ensures r == "true" || r == "false"
  {
    if plan.None? || |plan.value| == 0 then "true" else "false"
  }

  /** Once the replanner answers the user, the loop ends. */
  lemma AnswerEndsLoop(data: RawData, toJson: RawData -> string)
    ensures var r := ApplyReplan(RespondToUser(data), toJson);
      r.Replanned? && ShouldEndPlanner(r.update.plan) == "true"
  {
  }
}
