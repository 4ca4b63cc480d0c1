// What convex/chatMessages/helpers.ts does with a thread once it is built:
// grouping it into human-input/response groups (with tool inputs taken from
// the last AI message's tool calls), the latest message by creation order,
// the branch path that leads to it, the root-to-leaf chain of a message,
// and `buildThreadAndGroups`, which puts these together.

module ChatThread {
  import opened Strings
  import opened Seqs
  import opened ChatTree

  // ---------------------------------------------------------------------
  // groupMessages

  /** A human message and the messages that answer it. */
  datatype Group = Group(input: Entry, response: seq<Entry>)

  /** The loop state of `groupMessages`: finished groups, the open group, the last AI message of the open group. */
  datatype GroupState = GroupState(groups: seq<Group>, current: Option<Group>, lastAI: Option<Entry>)

  /** `tool_calls?.find(t => t.id === id)` */
  function FindToolCall(calls: seq<ToolCall>, id: string): (r: Option<ToolCall>)
    ensures r.None? <==> forall j :: 0 <= j < |calls| ==> calls[j].id != Some(id)
  {
    if calls == [] then None
    else if calls[0].id == Some(id) then Some(calls[0])
    else FindToolCall(calls[1..], id)
  }

  /** The call found is the first one carrying the id. */
  lemma {:induction false} FindToolCallIsFirst(calls: seq<ToolCall>, id: string)
    requires FindToolCall(calls, id).Some?
    ensures exists j :: 0 <= j < |calls| && calls[j] == FindToolCall(calls, id).value && calls[j].id == Some(id)
                        && forall j' :: 0 <= j' < j ==> calls[j'].id != Some(id)
  {
    if calls[0].id != Some(id) {
      var rest := calls[1..];
      FindToolCallIsFirst(rest, id);
      var j :| 0 <= j < |rest| && rest[j] == FindToolCall(rest, id).value && rest[j].id == Some(id)
               && forall j' :: 0 <= j' < j ==> rest[j'].id != Some(id);
      assert calls[j + 1] == rest[j];
      forall j' | 0 <= j' < j + 1 ensures calls[j'].id != Some(id) {
        if j' > 0 {
          assert calls[j'] == rest[j' - 1];
        }
      }
    }
  }

  /** A tool message answering a call of `lastAI` gets that call's arguments as its `input`. */
  function AttachToolInput(item: Entry, lastAI: Option<Entry>): (r: Entry)
    ensures r.msg.(input := None) == item.msg.(input := None)
    ensures r.branchIndex == item.branchIndex && r.totalBranches == item.totalBranches && r.depth == item.depth
    ensures item.msg.kind != Tool || lastAI.None? ==> r == item
    ensures item.msg.kind == Tool && lastAI.Some? ==>
      var tc := FindToolCall(lastAI.value.msg.toolCalls, item.msg.toolCallId);
      (tc.Some? ==> r.msg.input == Some(tc.value.args)) && (tc.None? ==> r == item)
  {
    if item.msg.kind == Tool && lastAI.Some? then
      match FindToolCall(lastAI.value.msg.toolCalls, item.msg.toolCallId)
      case Some(tc) => item.(msg := item.msg.(input := Some(tc.args)))
      case None => item
    else item
  }

  /** One iteration of the loop of `groupMessages`. */
  function GroupStep(st: GroupState, item: Entry): GroupState {
    if item.msg.kind == Human then
      GroupState(st.groups + OptionList(st.current), Some(Group(item, [])), None)
    else if st.current.None? then st
    else if item.msg.kind == AI then
      GroupState(st.groups, Some(Group(st.current.value.input, st.current.value.response + [item])), Some(item))
    else
      GroupState(st.groups,
                 Some(Group(st.current.value.input, st.current.value.response + [AttachToolInput(item, st.lastAI)])),
                 st.lastAI)
  }

  function OptionList<T>(o: Option<T>): seq<T> {
    if o.Some? then [o.value] else []
  }

  /** The loop state after the first `|t|` items. */
  function GroupFold(t: seq<Entry>): GroupState {
    if t == [] then GroupState([], None, None) else GroupStep(GroupFold(t[..|t| - 1]), t[|t| - 1])
  }

  /** The groups `groupMessages` returns: the finished ones and the open one. */
  function Grouped(t: seq<Entry>): seq<Group> {
    var st := GroupFold(t);
    st.groups + OptionList(st.current)
  }

  /** `groupMessages` */
  method GroupMessages(thread: seq<Entry>) returns (groups: seq<Group>)
    ensures groups == Grouped(thread)
  {
    groups := [];
    var group: Option<Group> := None;
    var lastAI: Option<Entry> := None;
    for i := 0 to |thread|
      invariant GroupState(groups, group, lastAI) == GroupFold(thread[..i])
    {
      assert thread[..i + 1][..i] == thread[..i];
      var item := thread[i];
      if item.msg.kind == Human {
        if group.Some? {
          groups := groups + [group.value];
        }
        group := Some(Group(item, []));
        lastAI := None;
        continue;
      }
      if group.None? {
        continue;
      }
      if item.msg.kind == AI {
        group := Some(Group(group.value.input, group.value.response + [item]));
        lastAI := Some(item);
        continue;
      }
      var annotated := AttachToolInput(item, lastAI);
      group := Some(Group(group.value.input, group.value.response + [annotated]));
    }
    assert thread[..|thread|] == thread;
    if group.Some? {
      groups := groups + [group.value];
    }
  }

  /** The messages of the groups, input first, in order. */
  function Flatten(gs: seq<Group>): seq<Entry> {
    if gs == [] then [] else Flatten(gs[..|gs| - 1]) + ([gs[|gs| - 1].input] + gs[|gs| - 1].response)
  }

  lemma {:induction false} FlattenAppend(a: seq<Group>, b: seq<Group>)
    ensures Flatten(a + b) == Flatten(a) + Flatten(b)
    decreases |b|
  {
    if b == [] {
      assert a + b == a;
    } else {
      var binit := b[..|b| - 1];
      var g := b[|b| - 1];
      assert (a + b)[..|a + b| - 1] == a + binit;
      assert (a + b)[|a + b| - 1] == g;
      FlattenAppend(a, binit);
      calc {
        Flatten(a + b);
        Flatten(a + binit) + ([g.input] + g.response);
        Flatten(a) + Flatten(binit) + ([g.input] + g.response);
        Flatten(a) + (Flatten(binit) + ([g.input] + g.response));
      }
    }
  }

  /** The thread from its first human message on; empty when there is none. */
  function FromFirstHuman(t: seq<Entry>): seq<Entry> {
    if t == [] then [] else if t[0].msg.kind == Human then t else FromFirstHuman(t[1..])
  }

  lemma {:induction false} FromFirstHumanAppend(t: seq<Entry>, x: Entry)
    ensures FromFirstHuman(t + [x]) ==
      if FromFirstHuman(t) != [] then FromFirstHuman(t) + [x]
      else if x.msg.kind == Human then [x] else []
  {
    if t != [] {
      assert (t + [x])[1..] == t[1..] + [x];
      FromFirstHumanAppend(t[1..], x);
    }
  }

  /** The same messages in the same order, where only tool messages may differ, and only in `input`. */
  predicate SameUpToToolInput(a: seq<Entry>, b: seq<Entry>) {
    && |a| == |b|
    && forall k :: 0 <= k < |a| ==>
         && a[k].(msg := a[k].msg.(input := None)) == b[k].(msg := b[k].msg.(input := None))
         && (b[k].msg.kind != Tool ==> a[k] == b[k])
  }

  /** A group is open exactly when a human message has been seen. */
  lemma {:induction false} OpenIffHumanSeen(t: seq<Entry>)
    ensures GroupFold(t).current.Some? <==> FromFirstHuman(t) != []
  {
    if t != [] {
      var init := t[..|t| - 1];
      OpenIffHumanSeen(init);
      assert t == init + [t[|t| - 1]];
      FromFirstHumanAppend(init, t[|t| - 1]);
    }
  }

  /**
   * Flattening the groups gives back the thread from its first human message on,
   * every message in place, tool messages possibly with their input attached:
   * leading non-human messages are dropped and nothing else is.
   */
  lemma {:induction false} GroupedKeepsMessages(t: seq<Entry>)
    ensures SameUpToToolInput(Flatten(Grouped(t)), FromFirstHuman(t))
  {
    if t != [] {
      var init := t[..|t| - 1];
      var x := t[|t| - 1];
      assert t == init + [x];
      GroupedKeepsMessages(init);
      OpenIffHumanSeen(init);
      FromFirstHumanAppend(init, x);
      var y := GroupedStep(init, x);
      if x.msg.kind == Human || FromFirstHuman(init) != [] {
        var flat := Flatten(Grouped(init));
        SameExtend(flat, FromFirstHuman(init), y, x);
        assert Flatten(Grouped(t)) == flat + [y];
        if FromFirstHuman(init) == [] {
          assert FromFirstHuman(init) + [x] == [x] == FromFirstHuman(t);
        } else {
          assert FromFirstHuman(t) == FromFirstHuman(init) + [x];
        }
      }
    }
  }

  /** What one more item adds to the flattened groups: the item (a tool message possibly annotated), or nothing. */
  lemma GroupedStep(init: seq<Entry>, x: Entry) returns (y: Entry)
    ensures y.(msg := y.msg.(input := None)) == x.(msg := x.msg.(input := None))
    ensures x.msg.kind != Tool ==> y == x
    ensures Flatten(Grouped(init + [x])) ==
      Flatten(Grouped(init)) + (if x.msg.kind == Human || GroupFold(init).current.Some? then [y] else [])
  {
    var st := GroupFold(init);
    assert (init + [x])[..|init + [x]| - 1] == init;
    assert GroupFold(init + [x]) == GroupStep(st, x);
    var before := st.groups + OptionList(st.current);
    if x.msg.kind == Human {
      y := x;
      FlattenAppend(before, [Group(x, [])]);
      assert Flatten([Group(x, [])]) == [x];
    } else if st.current.Some? {
      var cur := st.current.value;
      y := if x.msg.kind == AI then x else AttachToolInput(x, st.lastAI);
      FlattenAppend(st.groups, [cur]);
      FlattenAppend(st.groups, [Group(cur.input, cur.response + [y])]);
      assert Flatten([cur]) == [cur.input] + cur.response;
      assert Flatten([Group(cur.input, cur.response + [y])]) == [cur.input] + cur.response + [y];
    } else {
      y := x;
      assert Flatten(Grouped(init + [x])) == Flatten(Grouped(init)) + [];
    }
  }

  lemma SameExtend(a: seq<Entry>, b: seq<Entry>, y: Entry, x: Entry)
    requires SameUpToToolInput(a, b)
    requires y.(msg := y.msg.(input := None)) == x.(msg := x.msg.(input := None))
    requires x.msg.kind != Tool ==> y == x
    ensures SameUpToToolInput(a + [y], b + [x])
  {
    var a', b' := a + [y], b + [x];
    forall k | 0 <= k < |a'|
      ensures a'[k].(msg := a'[k].msg.(input := None)) == b'[k].(msg := b'[k].msg.(input := None))
      ensures b'[k].msg.kind != Tool ==> a'[k] == b'[k]
    {
      if k < |a| {
        assert a'[k] == a[k] && b'[k] == b[k];
      }
    }
  }

  function CountHumans(t: seq<Entry>): nat {
    if t == [] then 0 else CountHumans(t[..|t| - 1]) + (if t[|t| - 1].msg.kind == Human then 1 else 0)
  }

  /** Each human message opens exactly one group. */
  lemma {:induction false} OneGroupPerHuman(t: seq<Entry>)
    ensures |Grouped(t)| == CountHumans(t)
  {
    if t != [] {
      OneGroupPerHuman(t[..|t| - 1]);
    }
  }

  /** Every group starts with a human message, and no response holds one. */
  lemma {:induction false} GroupsStartWithHuman(t: seq<Entry>)
    ensures forall g :: g in Grouped(t) ==>
      g.input.msg.kind == Human && g.input in t && forall r :: r in g.response ==> r.msg.kind != Human
  {
    if t != [] {
      var init := t[..|t| - 1];
      GroupsStartWithHuman(init);
      assert t == init + [t[|t| - 1]];
      var st := GroupFold(init);
      assert forall g :: g in st.groups + OptionList(st.current) ==> g in Grouped(init);
    }
  }

  /**
   * `lastAI` is the last AI message of the open group (none before the group's
   * first AI message), so a tool message is matched against the nearest AI
   * message before it in its own group.
   */
  lemma {:induction false} LastAIIsNearest(t: seq<Entry>)
    ensures var st := GroupFold(t);
      && (st.current.None? ==> st.lastAI.None?)
      && (st.current.Some? && st.lastAI.None? ==> forall r :: r in st.current.value.response ==> r.msg.kind != AI)
      && (st.current.Some? && st.lastAI.Some? ==>
            var resp := st.current.value.response;
            exists k :: 0 <= k < |resp| && resp[k] == st.lastAI.value && resp[k].msg.kind == AI
                        && forall j :: k < j < |resp| ==> resp[j].msg.kind != AI)
  {
    if t != [] {
      var init := t[..|t| - 1];
      var x := t[|t| - 1];
      LastAIIsNearest(init);
      var st := GroupFold(init);
      if x.msg.kind != Human && st.current.Some? {
        var resp := st.current.value.response;
        var y := if x.msg.kind == AI then x else AttachToolInput(x, st.lastAI);
        var resp' := resp + [y];
        assert GroupFold(t).current.value.response == resp';
        if x.msg.kind == AI {
          assert resp'[|resp|] == x;
        } else if st.lastAI.Some? {
          var k :| 0 <= k < |resp| && resp[k] == st.lastAI.value && resp[k].msg.kind == AI
                   && forall j :: k < j < |resp| ==> resp[j].msg.kind != AI;
          assert resp'[k] == resp[k];
          assert forall j :: k < j < |resp'| ==> resp'[j].msg.kind != AI by {
            forall j | k < j < |resp'| ensures resp'[j].msg.kind != AI {
              if j < |resp| {
                assert resp'[j] == resp[j];
              }
            }
          }
        } else {
          assert forall r :: r in resp' ==> r in resp || r == y;
        }
      }
    }
  }

  // ---------------------------------------------------------------------
  // latestByCreation

  /**
   * `latestByCreation`: the first message that no other message comes after;
   * every message before it in the input comes strictly before it.
   */
  method LatestByCreation(ms: seq<Msg>) returns (latest: Msg)
    requires |ms| > 0
    ensures latest in ms
    ensures forall m :: m in ms ==> CreatedLe(m, latest)
    ensures exists k :: 0 <= k < |ms| && ms[k] == latest
                        && forall j :: 0 <= j < k ==> CreatedBefore(ms[j], latest)
  {
    latest := ms[0];
    CreatedLeReflexive(latest);
    ghost var k := 0;
    for i := 1 to |ms|
      invariant 0 <= k < i && ms[k] == latest
      invariant forall j :: 0 <= j < i ==> CreatedLe(ms[j], latest)
      invariant forall j :: 0 <= j < k ==> CreatedBefore(ms[j], latest)
    {
      if CreatedBefore(latest, ms[i]) {
        forall j | 0 <= j < i ensures CreatedBefore(ms[j], ms[i]) && CreatedLe(ms[j], ms[i]) {
          CreatedBeforeAfterLe(ms[j], latest, ms[i]);
          CreatedBeforeIsLe(ms[j], ms[i]);
        }
        CreatedLeReflexive(ms[i]);
        latest := ms[i];
        k := i;
      }
    }
  }

  /** With unique ids the latest message is the only one nothing comes after. */
  lemma LatestIsNewest(ms: seq<Msg>, latest: Msg)
    requires UniqueIds(ms) && latest in ms
    requires forall m :: m in ms ==> CreatedLe(m, latest)
    ensures forall m :: m in ms && m != latest ==> CreatedBefore(m, latest)
  {
    forall m | m in ms && m != latest ensures CreatedBefore(m, latest) {
      ByIdFindsMessage(ms, m);
      ByIdFindsMessage(ms, latest);
      CreatedOrderStrict(m, latest);
    }
  }

  // ---------------------------------------------------------------------
  // computeLatestPath

  /** `chain` starts at `m` and climbs one loaded parent at a time. */
  ghost predicate AncestorChain(byId: map<string, Msg>, m: Msg, chain: seq<Msg>) {
    && |chain| >= 1 && chain[0] == m
    && forall k :: 0 <= k < |chain| - 1 ==>
         HasLoadedParent(chain[k], byId) && chain[k + 1] == byId[chain[k].parentId.value]
  }

  /** The climb stopped: at a message without a loaded parent, or at one whose parent was already visited. */
  ghost predicate ChainStops(byId: map<string, Msg>, chain: seq<Msg>)
    requires |chain| >= 1
  {
    var last := chain[|chain| - 1];
    HasLoadedParent(last, byId) ==> byId[last.parentId.value].id in IdSet(chain)
  }

  /** `indexInParent.get(id) ?? 0` under a loaded parent, `rootIndex.get(id) ?? 0` otherwise. */
  function PathStep(idx: Index, m: Msg): int {
    if HasLoadedParent(m, idx.byId) then
      (if m.id in idx.indexInParent then idx.indexInParent[m.id] else 0)
    else
      (if m.id in idx.rootIndex then idx.rootIndex[m.id] else 0)
  }

  /** The map of ids to messages names each message by its own id. */
  ghost predicate SelfKeyed(byId: map<string, Msg>) {
    forall k :: k in byId ==> byId[k].id == k
  }

  /** The message the climb moves to from `m`: its loaded parent, if any. */
  function Climb(byId: map<string, Msg>, m: Msg): Option<Msg> {
    if HasLoadedParent(m, byId) then Some(byId[m.parentId.value]) else None
  }

  /** The state of the climb: the messages visited so far, their ids, and the message to visit next. */
  ghost predicate ClimbInv(byId: map<string, Msg>, latest: Msg, chain: seq<Msg>, visited: set<string>,
                           current: Option<Msg>) {
    && visited == IdSet(chain)
    && DistinctIds(chain)
    && (chain == [] ==> current == Some(latest))
    && (chain != [] ==> AncestorChain(byId, latest, chain) && current == Climb(byId, chain[|chain| - 1]))
  }

  /** Appending the message the climb reached keeps the chain a chain of parents. */
  lemma ChainExtend(byId: map<string, Msg>, leaf: Msg, chain: seq<Msg>, m: Msg)
    requires chain == [] ==> m == leaf
    requires chain != [] ==> AncestorChain(byId, leaf, chain) && Climb(byId, chain[|chain| - 1]) == Some(m)
    ensures AncestorChain(byId, leaf, chain + [m])
  {
    var chain' := chain + [m];
    forall k | 0 <= k < |chain'| - 1
      ensures HasLoadedParent(chain'[k], byId) && chain'[k + 1] == byId[chain'[k].parentId.value]
    {
      assert chain'[k] == chain[k];
      if k + 1 < |chain| {
        assert chain'[k + 1] == chain[k + 1];
      }
    }
  }

  lemma ClimbStep(byId: map<string, Msg>, latest: Msg, chain: seq<Msg>, visited: set<string>, m: Msg)
    requires ClimbInv(byId, latest, chain, visited, Some(m)) && m.id !in visited
    ensures ClimbInv(byId, latest, chain + [m], visited + {m.id}, Climb(byId, m))
  {
    var chain' := chain + [m];
    ChainExtend(byId, latest, chain, m);
    assert IdSet(chain') == IdSet(chain) + {m.id} by {
      assert forall x :: x in chain' <==> x in chain || x == m;
    }
    assert DistinctIds(chain') by {
      assert forall k :: 0 <= k < |chain| ==> chain[k].id in IdSet(chain);
    }
  }

  /**
   * `computeLatestPath`: climbs from `latest` through loaded parents, never
   * revisiting an id, recording each message's position among its siblings;
   * the recorded positions are returned root first.
   */
  method ComputeLatestPath(idx: Index, latest: Msg) returns (path: seq<int>, ghost chain: seq<Msg>)
    requires SelfKeyed(idx.byId)
    ensures AncestorChain(idx.byId, latest, chain)
    ensures DistinctIds(chain)
    ensures ChainStops(idx.byId, chain)
    ensures |path| == |chain|
    ensures forall k :: 0 <= k < |chain| ==> path[|chain| - 1 - k] == PathStep(idx, chain[k])
  {
    var rev: seq<int> := [];
    var visited: set<string> := {};
    var current: Option<Msg> := Some(latest);
    chain := [];
    ghost var universe := idx.byId.Keys + {latest.id};
    while current.Some? && current.value.id !in visited
      invariant ClimbInv(idx.byId, latest, chain, visited, current)
      invariant visited <= universe
      invariant current.Some? ==> current.value.id in universe
      invariant |rev| == |chain| && forall k :: 0 <= k < |chain| ==> rev[k] == PathStep(idx, chain[k])
      decreases universe - visited
    {
      var m := current.value;
      ClimbStep(idx.byId, latest, chain, visited, m);
      visited := visited + {m.id};
      rev := rev + [PathStep(idx, m)];
      chain := chain + [m];
      if HasLoadedParent(m, idx.byId) {
        current := Some(idx.byId[m.parentId.value]);
      } else {
        current := None;
      }
    }
    path := Reverse(rev);
  }

  /** Under the index of `ms`, a message's recorded position is its place among its siblings. */
  lemma PathStepIsPosition(ms: seq<Msg>, idx: Index, m: Msg)
    requires ChatTree.IndexOf(idx, ms) && UniqueIds(ms) && m in ms
    ensures 0 <= PathStep(idx, m) < |SiblingsAt(idx, m)|
    ensures SiblingsAt(idx, m)[PathStep(idx, m)] == m
  {
    if HasLoadedParent(m, idx.byId) {
      ChildPosition(ms, idx, m);
    } else {
      RootPosition(ms, idx, m);
    }
  }

  lemma ChildPosition(ms: seq<Msg>, idx: Index, m: Msg)
    requires ChatTree.IndexOf(idx, ms) && UniqueIds(ms) && m in ms && HasLoadedParent(m, idx.byId)
    ensures 0 <= PathStep(idx, m) < |SiblingsAt(idx, m)|
    ensures SiblingsAt(idx, m)[PathStep(idx, m)] == m
  {
    ByIdFindsMessage(ms, m);
    MessagesPartitioned(ms, m, "");
    var p := m.parentId.value;
    IndexLists(idx, ms, p);
    var kids := ChildrenOrEmpty(idx, p);
    assert m in multiset(kids);
    var i :| 0 <= i < |kids| && kids[i] == m;
    assert p in idx.children;
    assert m.id in idx.indexInParent;
    var q :| q in idx.children && idx.indexInParent[m.id] < |idx.children[q]|
             && idx.children[q][idx.indexInParent[m.id]].id == m.id;
    var c := idx.children[q][idx.indexInParent[m.id]];
    IndexLists(idx, ms, q);
    assert c in ChildrenOrEmpty(idx, q);
    ByIdFindsMessage(ms, c);
  }

  lemma RootPosition(ms: seq<Msg>, idx: Index, m: Msg)
    requires ChatTree.IndexOf(idx, ms) && UniqueIds(ms) && m in ms && !HasLoadedParent(m, idx.byId)
    ensures 0 <= PathStep(idx, m) < |SiblingsAt(idx, m)|
    ensures SiblingsAt(idx, m)[PathStep(idx, m)] == m
  {
    ByIdFindsMessage(ms, m);
    MessagesPartitioned(ms, m, "");
    IndexLists(idx, ms, "");
    assert m in multiset(idx.roots);
    var i :| 0 <= i < |idx.roots| && idx.roots[i] == m;
    assert m.id in idx.rootIndex;
    var r := idx.roots[idx.rootIndex[m.id]];
    ByIdFindsMessage(ms, r);
  }

  /** Climbing from `m` meets a message without a loaded parent within `fuel` steps. */
  ghost predicate ReachesRoot(byId: map<string, Msg>, m: Msg, fuel: nat)
    decreases fuel
  {
    HasLoadedParent(m, byId) ==> fuel > 0 && ReachesRoot(byId, byId[m.parentId.value], fuel - 1)
  }

  /** A climb that loops back into itself never reaches a root, however long it runs. */
  lemma {:induction false} CycleNeverReachesRoot(byId: map<string, Msg>, chain: seq<Msg>, i: nat, fuel: nat)
    requires |chain| >= 1 && AncestorChain(byId, chain[0], chain) && i < |chain|
    ensures (var last := chain[|chain| - 1];
             HasLoadedParent(last, byId) && byId[last.parentId.value] in chain)
            ==> !ReachesRoot(byId, chain[i], fuel)
    decreases fuel
  {
    var last := chain[|chain| - 1];
    if HasLoadedParent(last, byId) && byId[last.parentId.value] in chain && fuel > 0 {
      if i < |chain| - 1 {
        assert HasLoadedParent(chain[i], byId) && chain[i + 1] == byId[chain[i].parentId.value];
        CycleNeverReachesRoot(byId, chain, i + 1, fuel - 1);
      } else {
        var j :| 0 <= j < |chain| && chain[j] == byId[last.parentId.value];
        CycleNeverReachesRoot(byId, chain, j, fuel - 1);
      }
    }
  }

  /**
   * When the parents above `latest` lead to a root, the guard against revisiting
   * never fires: the climb of `computeLatestPath` ends at a root.
   */
  lemma ClimbEndsAtRoot(byId: map<string, Msg>, latest: Msg, chain: seq<Msg>, fuel: nat)
    requires SelfKeyed(byId) && (latest.id in byId ==> byId[latest.id] == latest)
    requires AncestorChain(byId, latest, chain) && ChainStops(byId, chain)
    requires ReachesRoot(byId, latest, fuel)
    ensures !HasLoadedParent(chain[|chain| - 1], byId)
  {
    var last := chain[|chain| - 1];
    if HasLoadedParent(last, byId) {
      var pid := last.parentId.value;
      assert byId[pid].id in IdSet(chain);
      var j :| 0 <= j < |chain| && chain[j].id == pid;
      if j > 0 {
        assert chain[j] == byId[chain[j - 1].parentId.value];
      }
      assert byId[pid] == chain[j];
    }
    CycleNeverReachesRoot(byId, chain, 0, fuel);
  }

  // ---------------------------------------------------------------------
  // getThreadFromMessage

  /** Read backwards, a chain of parents that ends at a root is a path down from that root to the leaf. */
  lemma ThreadIsRootPath(byId: map<string, Msg>, leaf: Msg, chain: seq<Msg>, thread: seq<Msg>)
    requires SelfKeyed(byId)
    requires AncestorChain(byId, leaf, chain) && !HasLoadedParent(chain[|chain| - 1], byId)
    requires |thread| == |chain| && forall k :: 0 <= k < |chain| ==> thread[k] == chain[|chain| - 1 - k]
    ensures thread[|thread| - 1] == leaf
    ensures ParentPath(thread, byId)
    ensures forall k :: 0 <= k < |thread| - 1 ==> thread[k] in byId.Values
  {
    var n := |thread|;
    assert thread[n - 1] == chain[0];
    assert thread[0] == chain[n - 1];
    forall j | 0 < j < n
      ensures HasLoadedParent(thread[j], byId) && thread[j].parentId.value == thread[j - 1].id
    {
      var i := n - 1 - j;
      assert thread[j] == chain[i] && thread[j - 1] == chain[i + 1];
      assert chain[i + 1] == byId[chain[i].parentId.value];
    }
    forall k | 0 <= k < n - 1 ensures thread[k] in byId.Values {
      var i := n - 2 - k;
      assert thread[k] == chain[i + 1];
      assert chain[i + 1] == byId[chain[i].parentId.value];
    }
  }

  /**
   * `getThreadFromMessage`: the messages from `leaf` up through its loaded
   * parents, returned root first. The source has no guard against a parent
   * cycle, so the parents above `leaf` must lead to a root.
   */
  method GetThreadFromMessage(leaf: Msg, ms: seq<Msg>) returns (thread: seq<Msg>)
    requires exists fuel: nat :: ReachesRoot(ById(ms), leaf, fuel)
    ensures |thread| >= 1 && thread[|thread| - 1] == leaf
    ensures ParentPath(thread, ById(ms))
    ensures forall k :: 0 <= k < |thread| - 1 ==> thread[k] in ms
  {
    var byId := BuildById(ms);
    var chain: seq<Msg> := [];
    var current: Option<Msg> := Some(leaf);
    ghost var fuel: nat :| ReachesRoot(byId, leaf, fuel);
    while current.Some?
      invariant current.Some? ==> ReachesRoot(byId, current.value, fuel)
      invariant chain == [] ==> current == Some(leaf)
      invariant chain != [] ==> AncestorChain(byId, leaf, chain) && current == Climb(byId, chain[|chain| - 1])
      decreases if current.Some? then fuel + 1 else 0
    {
      var m := current.value;
      ChainExtend(byId, leaf, chain, m);
      chain := chain + [m];
      if m.parentId.Some? && m.parentId.value != "" {
        if m.parentId.value in byId {
          current := Some(byId[m.parentId.value]);
          fuel := fuel - 1;
        } else {
          current := None;
        }
      } else {
        current := None;
      }
    }
    thread := Reverse(chain);
    ThreadIsRootPath(byId, leaf, chain, thread);
  }

  // ---------------------------------------------------------------------
  // buildThreadAndGroups

  /** Read root first, `path` gives each message of `chain` by its position among its siblings. */
  ghost predicate PathLeadsTo(ms: seq<Msg>, path: seq<int>, chain: seq<Msg>) {
    && |path| == |chain|
    && forall k :: 0 <= k < |chain| ==>
         var sib := SiblingsIn(ms, chain[k]);
         0 <= path[|chain| - 1 - k] < |sib| && sib[path[|chain| - 1 - k]] == chain[k]
  }

  /** The positions `computeLatestPath` reads from the index are real sibling positions. */
  lemma LatestPathPositions(ms: seq<Msg>, idx: Index, latest: Msg, path: seq<int>, chain: seq<Msg>)
    requires ChatTree.IndexOf(idx, ms) && UniqueIds(ms) && latest in ms
    requires AncestorChain(idx.byId, latest, chain)
    requires |path| == |chain|
    requires forall k :: 0 <= k < |chain| ==> path[|chain| - 1 - k] == PathStep(idx, chain[k])
    ensures PathLeadsTo(ms, path, chain)
  {
    forall k | 0 <= k < |chain|
      ensures var sib := SiblingsIn(ms, chain[k]);
              0 <= path[|chain| - 1 - k] < |sib| && sib[path[|chain| - 1 - k]] == chain[k]
    {
      if k > 0 {
        assert chain[k] == idx.byId[chain[k - 1].parentId.value];
      }
      PathStepIsPosition(ms, idx, chain[k]);
      SiblingsThroughIndex(ms, idx, chain[k]);
    }
  }

  /**
   * `latestPath` leads to the newest message: `chain` climbs from it through
   * loaded parents until it stops, the path gives the chain's sibling
   * positions root first, and when the parents above the newest message lead
   * to a root the chain ends at that root.
   */
  ghost predicate LatestPathOf(ms: seq<Msg>, latestPath: seq<int>, chain: seq<Msg>) {
    && |chain| >= 1
    && AncestorChain(ById(ms), chain[0], chain) && ChainStops(ById(ms), chain)
    && chain[0] in ms && (forall m :: m in ms && m != chain[0] ==> CreatedBefore(m, chain[0]))
    && PathLeadsTo(ms, latestPath, chain)
    && ((exists fuel: nat :: ReachesRoot(ById(ms), chain[0], fuel)) ==>
          !HasLoadedParent(chain[|chain| - 1], ById(ms)))
  }

  lemma LatestPathCorrect(ms: seq<Msg>, idx: Index, latest: Msg, latestPath: seq<int>, chain: seq<Msg>)
    requires ChatTree.IndexOf(idx, ms) && UniqueIds(ms) && latest in ms
    requires forall m :: m in ms ==> CreatedLe(m, latest)
    requires AncestorChain(idx.byId, latest, chain) && DistinctIds(chain) && ChainStops(idx.byId, chain)
    requires |latestPath| == |chain|
    requires forall k :: 0 <= k < |chain| ==> latestPath[|chain| - 1 - k] == PathStep(idx, chain[k])
    ensures LatestPathOf(ms, latestPath, chain)
  {
    LatestIsNewest(ms, latest);
    LatestPathPositions(ms, idx, latest, latestPath, chain);
    ByIdFindsMessage(ms, latest);
    if fuel: nat :| ReachesRoot(idx.byId, latest, fuel) {
      ClimbEndsAtRoot(idx.byId, latest, chain, fuel);
    }
  }

  /**
   * `buildThreadAndGroups`: no messages give no groups and an empty path;
   * otherwise the thread chosen by `path` is grouped, and the returned path
   * leads from a root down to the newest message.
   */
  method BuildThreadAndGroups(ms: seq<Msg>, path: seq<int>)
    returns (groups: seq<Group>, latestPath: seq<int>, ghost thread: seq<Entry>, ghost chain: seq<Msg>)
    requires UniqueIds(ms)
    ensures ms == [] ==> groups == [] && latestPath == []
    ensures ms != [] ==>
      ThreadPlaced(ms, thread) && AllParentsEmittedBefore(thread) && groups == Grouped(thread)
    ensures ms != [] ==> LatestPathOf(ms, latestPath, chain)
    ensures ms != [] ==> forall other: Index :: ChatTree.IndexOf(other, ms) ==> groups == Grouped(Walk(other.children, path, other.roots, 0, |ms|))
  {
    if ms == [] {
      return [], [], [], [];
    }
    var idx := IndexChatMessages(ms);
    var t := BuildThreadFromMessages(ms, path, Some(idx));
    groups := GroupMessages(t);
    thread := t;
    var latest := LatestByCreation(ms);
    latestPath, chain := ComputeLatestPath(idx, latest);
    LatestPathCorrect(ms, idx, latest, latestPath, chain);
  }
}
