// The derived values of the chat store (src/store/chatStore.ts): the
// grouped conversation, the id of the last message of the thread, and the
// list of every artifact in the conversation, stored and streaming.
// Whether a message's content is a plain string is an input (`content`):
// the parsed message object is not modelled.

module ChatStore {
  import opened Strings
  import opened Seqs
  import opened ChatTree
  import opened ChatThread
  import opened StreamGroups
  import opened Artifacts

  /** `groupedMessagesAtom`: the current thread grouped by human turn, nothing without a thread. */
  function GroupedMessages(thread: Option<seq<Entry>>): (r: seq<Group>)
    ensures thread.None? ==> r == []
    ensures thread.Some? ==> |r| == CountHumans(thread.value)
    ensures thread.Some? ==> SameUpToToolInput(Flatten(r), FromFirstHuman(thread.value))
  {
    if thread.None? then []
    else
      OneGroupPerHuman(thread.value);
      GroupedKeepsMessages(thread.value);
      Grouped(thread.value)
  }

  /** `lastChatMessageAtom`: the id of the thread's last message, if there is one. */
  function LastChatMessage(thread: Option<seq<Entry>>): (r: Option<string>)
    ensures r.Some? <==> thread.Some? && thread.value != []
    ensures r.Some? ==> r.value == thread.value[|thread.value| - 1].msg.id
  {
    if thread.Some? && |thread.value| > 0 then Some(thread.value[|thread.value| - 1].msg.id) else None
  }

  /** A message added at the end of the thread becomes the last chat message, whatever came before. */
  lemma LastChatMessageAppend(thread: seq<Entry>, e: Entry)
    ensures LastChatMessage(Some(thread + [e])) == Some(e.msg.id)
    ensures LastChatMessage(Some([])) == None && LastChatMessage(None) == None
  {
    assert (thread + [e])[|thread|] == e;
  }

  // ---------------------------------------------------------------------
  // Stored artifacts

  /** The artifacts of one response message: those in the text of an AI message whose content is a string. */
  function EntryArtifacts(e: Entry, content: Msg -> Option<string>): seq<Artifact> {
    if e.msg.kind == AI && content(e.msg).Some? then ParseArtifacts(content(e.msg).value) else []
  }

  function ResponseArtifacts(response: seq<Entry>, content: Msg -> Option<string>): seq<Artifact> {
    FlatMap(response, (e: Entry) => EntryArtifacts(e, content))
  }

  function StoredArtifacts(groups: seq<Group>, content: Msg -> Option<string>): seq<Artifact> {
    FlatMap(groups, (g: Group) => ResponseArtifacts(g.response, content))
  }

  /** An AI response message whose string content holds artifact `a`. */
  predicate Carries(e: Entry, content: Msg -> Option<string>, a: Artifact) {
    e.msg.kind == AI && content(e.msg).Some? && a in ParseArtifacts(content(e.msg).value)
  }

  /**
   * The stored artifacts are exactly those of the AI messages in the groups'
   * responses whose content is a string: the groups' human inputs, and tool
   * messages, never contribute.
   */
  lemma StoredArtifactsMembers(groups: seq<Group>, content: Msg -> Option<string>, a: Artifact)
    ensures a in StoredArtifacts(groups, content) <==>
      exists g, e :: g in groups && e in g.response && Carries(e, content, a)
  {
    var perEntry := (e: Entry) => EntryArtifacts(e, content);
    var perGroup := (g: Group) => ResponseArtifacts(g.response, content);
    FlatMapMembers(groups, perGroup, a);
    forall g | g in groups
      ensures a in perGroup(g) <==> exists e :: e in g.response && Carries(e, content, a)
    {
      FlatMapMembers(g.response, perEntry, a);
    }
  }

  lemma ResponseArtifactsStep(response: seq<Entry>, i: nat, content: Msg -> Option<string>)
    requires i < |response|
    ensures ResponseArtifacts(response[..i + 1], content) == ResponseArtifacts(response[..i], content) + EntryArtifacts(response[i], content)
  {
    assert response[..i + 1] == response[..i] + [response[i]];
    FlatMapAppend(response[..i], response[i], (e: Entry) => EntryArtifacts(e, content));
  }

  lemma StoredArtifactsStep(groups: seq<Group>, i: nat, content: Msg -> Option<string>)
    requires i < |groups|
    ensures StoredArtifacts(groups[..i + 1], content) == StoredArtifacts(groups[..i], content) + ResponseArtifacts(groups[i].response, content)
  {
    assert groups[..i + 1] == groups[..i] + [groups[i]];
    FlatMapAppend(groups[..i], groups[i], (g: Group) => ResponseArtifacts(g.response, content));
  }

  /** One response message: parse its text when it is an AI message whose content is a string. */
  method MessageArtifacts(responseMessage: Entry, content: Msg -> Option<string>) returns (found: seq<Artifact>)
    ensures found == EntryArtifacts(responseMessage, content)
  {
    var msg := responseMessage.msg;
    found := [];
    if msg.kind == AI {
      var c := content(msg);
      if c.Some? {
        var parts := ParseContent(c.value);
        found := ArtifactsOf(parts);
      }
    }
  }

  /** The inner loop: the artifacts of one group's responses, pushed in order. */
  method PushResponseArtifacts(artifacts0: seq<Artifact>, response: seq<Entry>, content: Msg -> Option<string>)
    returns (artifacts: seq<Artifact>)
    ensures artifacts == artifacts0 + ResponseArtifacts(response, content)
  {
    var collected := [];
    var i := 0;
    while i < |response|
      invariant 0 <= i <= |response|
      invariant collected == ResponseArtifacts(response[..i], content)
    {
      var found := MessageArtifacts(response[i], content);
      ResponseArtifactsStep(response, i, content);
      collected := collected + found;
      i := i + 1;
    }
    assert response[..i] == response;
    artifacts := artifacts0 + collected;
  }

  // ---------------------------------------------------------------------
  // Stream artifacts merged by id

  predicate HasId(s: seq<Artifact>, id: string) {
    exists k :: 0 <= k < |s| && s[k].id == id
  }

  /** Past position `n`, `r` holds only artifacts of `extra`, each with an id that does not occur before it. */
  predicate FreshFrom(r: seq<Artifact>, n: nat, extra: seq<Artifact>) {
    forall i :: n <= i < |r| ==> r[i] in extra && !HasId(r[..i], r[i].id)
  }

  /** Every id of `extra` occurs in `r`. */
  predicate CoversIds(r: seq<Artifact>, extra: seq<Artifact>) {
    forall a :: a in extra ==> HasId(r, a.id)
  }

  /** Each artifact of `extra`, in order, appended unless one with its id is already there. */
  function MergeById(acc: seq<Artifact>, extra: seq<Artifact>): seq<Artifact> {
    if extra == [] then acc
    else
      var r := MergeById(acc, extra[..|extra| - 1]);
      var sa := extra[|extra| - 1];
      if HasId(r, sa.id) then r else r + [sa]
  }

  /**
   * Merging keeps what was there as a prefix, adds only artifacts of `extra`,
   * each with an id not seen before it, and leaves every id of `extra`
   * present.
   */
  lemma {:induction false} MergeByIdProperties(acc: seq<Artifact>, extra: seq<Artifact>)
    ensures var r := MergeById(acc, extra);
      && |acc| <= |r| <= |acc| + |extra|
      && r[..|acc|] == acc
      && FreshFrom(r, |acc|, extra)
      && CoversIds(r, extra)
  {
    if extra != [] {
      var init := extra[..|extra| - 1];
      var sa := extra[|extra| - 1];
      MergeByIdProperties(acc, init);
      assert extra == init + [sa];
      MergeStep(acc, init, sa, MergeById(acc, init), MergeById(acc, extra));
    }
  }

  /** One artifact merged after `init` keeps the properties of the merge. */
  lemma MergeStep(acc: seq<Artifact>, init: seq<Artifact>, sa: Artifact, r0: seq<Artifact>, r: seq<Artifact>)
    requires |acc| <= |r0| <= |acc| + |init| && r0[..|acc|] == acc
    requires FreshFrom(r0, |acc|, init) && CoversIds(r0, init)
    requires r == if HasId(r0, sa.id) then r0 else r0 + [sa]
    ensures |acc| <= |r| <= |acc| + |init + [sa]| && r[..|acc|] == acc
    ensures FreshFrom(r, |acc|, init + [sa]) && CoversIds(r, init + [sa])
  {
    if HasId(r0, sa.id) {
      CoversKeep(r0, init, sa);
      FreshKeep(r0, |acc|, init, sa);
    } else {
      assert (r0 + [sa])[..|acc|] == r0[..|acc|];
      CoversAppend(r0, init, sa);
      FreshAppend(r0, |acc|, init, sa);
    }
  }

  lemma CoversKeep(r0: seq<Artifact>, init: seq<Artifact>, sa: Artifact)
    requires CoversIds(r0, init) && HasId(r0, sa.id)
    ensures CoversIds(r0, init + [sa])
  {
    forall a | a in init + [sa] ensures HasId(r0, a.id) {
      if a !in init {
        assert a == sa;
      }
    }
  }

  lemma CoversAppend(r0: seq<Artifact>, init: seq<Artifact>, sa: Artifact)
    requires CoversIds(r0, init)
    ensures CoversIds(r0 + [sa], init + [sa])
  {
    var r := r0 + [sa];
    forall a | a in init + [sa] ensures HasId(r, a.id) {
      if a in init {
        var k :| 0 <= k < |r0| && r0[k].id == a.id;
        assert r[k] == r0[k];
      } else {
        assert r[|r0|] == sa == a;
      }
    }
  }

  lemma FreshKeep(r0: seq<Artifact>, n: nat, init: seq<Artifact>, sa: Artifact)
    requires FreshFrom(r0, n, init)
    ensures FreshFrom(r0, n, init + [sa])
  {
    assert forall a :: a in init ==> a in init + [sa];
  }

  lemma FreshAppend(r0: seq<Artifact>, n: nat, init: seq<Artifact>, sa: Artifact)
    requires FreshFrom(r0, n, init) && !HasId(r0, sa.id) && n <= |r0|
    ensures FreshFrom(r0 + [sa], n, init + [sa])
  {
    var r := r0 + [sa];
    assert r[..|r0|] == r0;
    forall i | n <= i < |r| ensures r[i] in init + [sa] && !HasId(r[..i], r[i].id) {
      if i < |r0| {
        assert r[..i] == r0[..i];
        assert r0[i] in init;
      }
    }
  }

  /** Ids already present are not added again: merging a second time changes nothing. */
  lemma {:induction false} MergeByIdCovered(acc: seq<Artifact>, extra: seq<Artifact>)
    requires CoversIds(acc, extra)
    ensures MergeById(acc, extra) == acc
  {
    if extra != [] {
      assert forall a :: a in extra[..|extra| - 1] ==> a in extra;
      MergeByIdCovered(acc, extra[..|extra| - 1]);
      assert extra[|extra| - 1] in extra;
    }
  }

  lemma MergeByIdIdempotent(acc: seq<Artifact>, extra: seq<Artifact>)
    ensures MergeById(MergeById(acc, extra), extra) == MergeById(acc, extra)
  {
    MergeByIdProperties(acc, extra);
    MergeByIdCovered(MergeById(acc, extra), extra);
  }

  /** `streamArtifacts.forEach(...)`: the dedup-append loop. */
  method PushNewById(artifacts0: seq<Artifact>, streamArtifacts: seq<Artifact>) returns (artifacts: seq<Artifact>)
    ensures artifacts == MergeById(artifacts0, streamArtifacts)
  {
    artifacts := artifacts0;
    var i := 0;
    while i < |streamArtifacts|
      invariant 0 <= i <= |streamArtifacts|
      invariant artifacts == MergeById(artifacts0, streamArtifacts[..i])
    {
      var sa := streamArtifacts[i];
      assert streamArtifacts[..i + 1][..i] == streamArtifacts[..i];
      var found := false;
      var k := 0;
      while k < |artifacts| && !found
        invariant 0 <= k <= |artifacts|
        invariant found <==> exists j :: 0 <= j < k && artifacts[j].id == sa.id
      {
        if artifacts[k].id == sa.id {
          found := true;
        }
        k := k + 1;
      }
      if !found {
        artifacts := artifacts + [sa];
      }
      i := i + 1;
    }
    assert streamArtifacts[..i] == streamArtifacts;
  }

  // ---------------------------------------------------------------------
  // allArtifactsAtom

  /** The artifacts of the text streamed so far: the AI groups' contents joined, then parsed. */
  function StreamArtifacts(chunkGroups: seq<ChunkGroup>): seq<Artifact> {
    ParseArtifacts(GroupsText(chunkGroups, ContentPart))
  }

  function AllArtifactsOf(groupedMessages: seq<Group>, chunkGroups: Option<seq<ChunkGroup>>,
                          content: Msg -> Option<string>): seq<Artifact> {
    var stored := StoredArtifacts(groupedMessages, content);
    if chunkGroups.Some? then MergeById(stored, StreamArtifacts(chunkGroups.value)) else stored
  }

  /**
   * `allArtifactsAtom`: the artifacts of every stored AI message, group by
   * group and response by response, then the streamed artifacts whose ids
   * are new.
   */
  method AllArtifacts(groupedMessages: seq<Group>, chunkGroups: Option<seq<ChunkGroup>>,
                      content: Msg -> Option<string>) returns (artifacts: seq<Artifact>)
    ensures artifacts == AllArtifactsOf(groupedMessages, chunkGroups, content)
  {
    artifacts := [];
    var g := 0;
    while g < |groupedMessages|
      invariant 0 <= g <= |groupedMessages|
      invariant artifacts == StoredArtifacts(groupedMessages[..g], content)
    {
      StoredArtifactsStep(groupedMessages, g, content);
      artifacts := PushResponseArtifacts(artifacts, groupedMessages[g].response, content);
      g := g + 1;
    }
    assert groupedMessages[..g] == groupedMessages;
    if chunkGroups.Some? {
      var streamContent := GroupsText(chunkGroups.value, ContentPart);
      var streamParts := ParseContent(streamContent);
      artifacts := PushNewById(artifacts, ArtifactsOf(streamParts));
    }
  }

  /**
   * What the list holds: the stored artifacts first, unchanged and in order;
   * after them only streamed artifacts, each with an id new at its place; and
   * an artifact with the id of every streamed one.
   */
  lemma AllArtifactsLayout(groupedMessages: seq<Group>, chunkGroups: Option<seq<ChunkGroup>>,
                           content: Msg -> Option<string>)
    ensures var r := AllArtifactsOf(groupedMessages, chunkGroups, content);
      var stored := StoredArtifacts(groupedMessages, content);
      && |stored| <= |r| && r[..|stored|] == stored
      && (chunkGroups.None? ==> r == stored)
      && (chunkGroups.Some? ==>
            FreshFrom(r, |stored|, StreamArtifacts(chunkGroups.value)) && CoversIds(r, StreamArtifacts(chunkGroups.value)))
  {
    var stored := StoredArtifacts(groupedMessages, content);
    if chunkGroups.Some? {
      MergeByIdProperties(stored, StreamArtifacts(chunkGroups.value));
    }
  }

  /** A stream that carries no AI text adds nothing. */
  lemma NoStreamTextNoStreamArtifacts(groupedMessages: seq<Group>, chunkGroups: seq<ChunkGroup>,
                                      content: Msg -> Option<string>)
    requires GroupsText(chunkGroups, ContentPart) == ""
    ensures AllArtifactsOf(groupedMessages, Some(chunkGroups), content) == StoredArtifacts(groupedMessages, content)
  {
    PlainText("");
  }
}
