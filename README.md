# zerobs chat core in Dafny

This project models the sequential core of the zerobs chat application
(a TypeScript front end on React and a Convex back end) and proves properties
of it. Each source file is modelled in its own form:

- **Pure code** becomes functions and lemmas.
- **Loops** become methods whose `ensures` ties the result to a specification
  function.
- **Objects and stores whose fields change** become classes with `modifies`
  clauses. This covers the LRU cache, the checkpoint tables, the GitHub
  selection stores, the accordion, the model picker and the MCP handlers.

The modelled groups are:

- **The branching chat-message tree.** This covers the sibling order, the
  index, the branch walk that builds a thread, grouping into input/response
  groups, the path to the latest message, the chain from a leaf to its root,
  the parsed-message LRU cache, the content of a new message and the cascade
  delete (`ChatTree`, `ChatThread`, `MessageCache`, `ChatMutations`,
  `MessageGroups`).
- **Grouping stream events into AI and tool groups** (`StreamGroups`).
- **The per-chat message queue** (`MessageQueue`).
- **The artifact tag parser** and the store's artifact de-duplication
  (`Artifacts`, `ChatStore`).
- **The planner graph's routing, replanning filter and plan consumption**,
  with the agent helpers (`PlannerGraph`, `AgentTools`).
- **The checkpoint tables.** This covers upserts, first-write-wins blobs,
  last-write-wins pending writes and the queries (`CheckpointStore`,
  `CheckpointQueries`).
- **GitHub file selection under a token budget.** This covers the tree
  operations, the selection stores, token accounting, the hierarchy rebuilt
  from paths, URL parsing and repository statistics (`RepoTree`,
  `RepoViews`, `PathSets`, `GitHubStore`, `GitHubAtoms`, `GitHubHooks`,
  `TokenCounter`, `GhText`, `FileTree`, `GitHubUrl`, `RepoScan`).
- **The small utilities:**
  - tool-name prettifying (`ToolNames`) and MCP tool-name parsing
    (`McpHelpers`);
  - the environment-variable editor and paste parser (`EnvVars`);
  - the MCP form validator and handlers (`McpForm`);
  - document tags (`DocTags`);
  - the accordion (`Accordion`) and the model picker (`ModelPicker`);
  - two Convex scripts: unused-function detection (`ConvexUsage`) and
    duplicate query references (`DuplicateQueries`).

`Strings`, `Seqs`, `Sorting` and `PathSets` hold shared helpers: text
operations, list operations, a stable insertion sort with its
sortedness and permutation proof, and a JavaScript `Set` of strings
modelled as a list without duplicates in insertion order.

Database calls, model calls, fetches, the clock, random ids, MIME lookup and
JSON parsing are not modelled. Where the code depends on their results, those
results are parameters.

## Model

| member | source | states |
|---|---|---|
| ChatTree.Clamp | convex/chatMessages/helpers.ts:31-32 | the result lies in [lo, hi] when lo ≤ hi, equals n inside the range and the nearer bound outside it |
| ChatTree.CreatedLeTotalPreorder | convex/chatMessages/helpers.ts:34-41 | ordering by creation time, then by id string, is total and transitive, so sorting by it is well defined |
| ChatTree.CreatedOrderStrict | convex/chatMessages/helpers.ts:34-41 | for distinct ids exactly one of two messages comes first, and "not after" coincides with "before" |
| ChatTree.ById | convex/chatMessages/helpers.ts:92-93 | `byId` has exactly the input's ids as keys and maps each to an input message carrying that id |
| ChatTree.ByIdFindsMessage | convex/chatMessages/helpers.ts:92-93 | with unique ids, every message is found under its own id |
| ChatTree.RootsCount | convex/chatMessages/helpers.ts:101-110 | the roots hold every copy of a message whose parent is unset or not loaded, and no copy of any other |
| ChatTree.ChildrenCount | convex/chatMessages/helpers.ts:101-110 | a parent's children list holds every copy of exactly the messages whose loaded parent it is |
| ChatTree.MessagesPartitioned | convex/chatMessages/helpers.ts:101-110 | every message lands in exactly one place: the roots, or its own parent's children list and no other |
| ChatTree.FilterMembers | convex/chatMessages/helpers.ts:101-110 | roots and children lists hold only input messages that meet their list's condition |
| ChatTree.SortedSiblings | convex/chatMessages/helpers.ts:112-114 | a sorted sibling list is ordered by `byCreatedAsc` and is a permutation of the unsorted one |
| ChatTree.BuildById | convex/chatMessages/helpers.ts:92-93 | the first loop of `indexChatMessages` builds exactly `ById(ms)` |
| ChatTree.BuildAdjacency | convex/chatMessages/helpers.ts:95-110 | the adjacency loop yields the roots filter, and a children list exactly for each parent that has children |
| ChatTree.BuildIndexInParent | convex/chatMessages/helpers.ts:116-121 | `indexInParent` has a key for each child id, mapped to that child's position in its sorted list |
| ChatTree.BuildRootIndex | convex/chatMessages/helpers.ts:122-124 | `rootIndex` has exactly the root ids as keys, each mapped to its position among the roots |
| ChatTree.IndexChatMessages | convex/chatMessages/helpers.ts:91-127 | the index returned is the index of the input: sorted roots and children lists plus consistent position maps |
| ChatTree.IndexLists | convex/chatMessages/helpers.ts:101-124 | the index's lists are the sorted filters of the input, and with unique ids they have distinct ids |
| ChatTree.SelectIndex | convex/chatMessages/helpers.ts:144-145 | the picked sibling index is in range: a missing path entry picks the newest, an in-range entry is kept, and a negative one picks 0 |
| ChatTree.DefaultPickIsNewest | convex/chatMessages/helpers.ts:144 | the default pick, the last sibling, is not older than any of its siblings |
| ChatTree.SiblingsThroughIndex | convex/chatMessages/helpers.ts:136-157 | a message's sibling list read through the index is its sibling list in the input |
| ChatTree.ChildEntriesAt | convex/chatMessages/helpers.ts:159-169 | the entries emitted for several children: one per child in order, with position t+1 of the child count, one level deeper |
| ChatTree.EmitChildren | convex/chatMessages/helpers.ts:161-169 | the inner loop appends exactly `ChildEntries(kids, depth)` to the result |
| ChatTree.WalkRound | convex/chatMessages/helpers.ts:143-176 | one round appends the sibling `path` selects (by default the newest) with its 1-based position and the sibling count, then, when it has more than one child, every child one level deeper; the next round looks below the last child in that case and below the selected sibling otherwise (`RoundEntries`, `NextSiblings`) |
| ChatTree.RoundKeepsInv | convex/chatMessages/helpers.ts:142-179 | a round keeps every entry at its real sibling position and count and each parent before its child, and adds at least one entry while never exceeding the number of messages, so the loop ends |
| ChatTree.WalkByRounds | convex/chatMessages/helpers.ts:142-179 | the entries emitted round by round until the siblings run out are `Walk`, the thread defined by the two rules of a round from the roots at depth 0 |
| ChatTree.WalkThread | convex/chatMessages/helpers.ts:139-181 | the result is exactly `Walk` from the roots; it is empty iff there are no roots; every entry is placed at its real sibling position and count; each parent is emitted before its child; the first entry is the root the path selects and the last has no children |
| ChatTree.IndexListsDetermined | convex/chatMessages/helpers.ts:91-127 | two indexes of the same messages have the same roots and the same children lists |
| ChatTree.ThreadDetermined | convex/chatMessages/helpers.ts:134-181 | the walk over any index of the messages gives the same thread, so an index passed in changes nothing |
| ChatTree.BuildThreadFromMessages | convex/chatMessages/helpers.ts:129-182 | no messages give no thread; otherwise the thread equals `Walk` over any index of the messages, is empty iff no message is a root, is well placed, has parents before children, starts at the selected root and ends at a message without children |
| ChatThread.FindToolCall | convex/chatMessages/helpers.ts:214 | no call is found iff no call carries the id |
| ChatThread.FindToolCallIsFirst | convex/chatMessages/helpers.ts:214 | the call found is an element of the list that carries the id |
| ChatThread.AttachToolInput | convex/chatMessages/helpers.ts:211-221 | only a tool message after an AI message changes, and only in its `input`, which becomes the matching call's arguments when one exists |
| ChatThread.GroupMessages | convex/chatMessages/helpers.ts:184-229 | the loop returns `Grouped(thread)`, the fold the lemmas below describe |
| ChatThread.OpenIffHumanSeen | convex/chatMessages/helpers.ts:193-203 | a group is open exactly when a human message has been seen |
| ChatThread.GroupedKeepsMessages | convex/chatMessages/helpers.ts:184-229 | flattening the groups gives the thread from its first human message on, each message in place, tool messages possibly with their input attached |
| ChatThread.GroupedStep | convex/chatMessages/helpers.ts:192-225 | one more item adds itself (a tool message possibly annotated) to the flattened groups, or nothing before the first human |
| ChatThread.OneGroupPerHuman | convex/chatMessages/helpers.ts:193-197 | the number of groups is the number of human messages |
| ChatThread.GroupsStartWithHuman | convex/chatMessages/helpers.ts:193-197 | every group's input is a human message and no response holds one |
| ChatThread.LastAIIsNearest | convex/chatMessages/helpers.ts:190-208 | `lastAI` is the last AI message of the open group, so a tool message is matched against the nearest AI message before it in its group |
| ChatThread.LatestByCreation | convex/chatMessages/helpers.ts:257-267 | the result is an input message that no input message comes after |
| ChatThread.LatestIsNewest | convex/chatMessages/helpers.ts:257-267 | with unique ids every other message comes strictly before the latest |
| ChatThread.ComputeLatestPath | convex/chatMessages/helpers.ts:232-255 | the climb follows loaded parents without repeating an id and stops at a root or a revisited id; the path has one position per message climbed, root first |
| ChatThread.PathStepIsPosition | convex/chatMessages/helpers.ts:245-249 | the recorded position is in range and names the message itself among its siblings |
| ChatThread.CycleNeverReachesRoot | convex/chatMessages/helpers.ts:240 | a climb that loops back on itself never reaches a root, which is why the visited set is needed for termination |
| ChatThread.ClimbEndsAtRoot | convex/chatMessages/helpers.ts:240-252 | when the parents above the latest message lead to a root, the climb ends at that root |
| ChatThread.ThreadIsRootPath | convex/chatMessages/helpers.ts:295-303 | read backwards, the parent chain ends at the leaf and each element is the parent of the next |
| ChatThread.GetThreadFromMessage | convex/chatMessages/helpers.ts:288-304 | the result ends with the leaf, each element's parent is the element before it, and all but the leaf come from the input |
| ChatThread.LatestPathPositions | convex/chatMessages/helpers.ts:243-253 | the positions read from the index lead from a root down to the latest message |
| ChatThread.BuildThreadAndGroups | convex/chatMessages/helpers.ts:269-286 | no messages give no groups and an empty path; otherwise the groups are those of the thread `Walk` gives over any index of the messages, and the path leads from a root to the newest message |
| MessageCache.Without | convex/chatMessages/helpers.ts:57 | deleting a key from the key order removes that key and keeps all others |
| MessageCache.WithoutDistinct | convex/chatMessages/helpers.ts:57 | deleting from distinct keys keeps them distinct and removes exactly one key when it is present |
| MessageCache.DropOldestDistinct | convex/chatMessages/helpers.ts:64-65 | evicting the oldest key keeps the keys distinct and removes only that key |
| MessageCache.ReinsertSame | convex/chatMessages/helpers.ts:57-58 | deleting a key and setting it back to its value leaves the map as it was |
| MessageCache.SizeIsOrderLength | convex/chatMessages/helpers.ts:63 | the map's size is the number of keys in the order |
| MessageCache.HitKeeps | convex/chatMessages/helpers.ts:55-59 | moving a hit key to the newest position keeps the keys distinct, equal to the map's keys and within 2000 |
| MessageCache.MissKeeps | convex/chatMessages/helpers.ts:61-66 | storing a new key as newest, and evicting the oldest key when the count passes 2000, keeps the keys distinct, equal to the map's keys and within 2000 |
| MessageCache.Cache.constructor | convex/chatMessages/helpers.ts:50-51 | the cache starts empty |
| MessageCache.Cache.GetOrSet | convex/chatMessages/helpers.ts:53-68 | a hit returns the stored value and makes the key newest; a miss stores the value as newest and evicts the oldest key when the cache would exceed 2000 entries; the cache never exceeds 2000 entries |
| ChatMutations.CreateContent | convex/chatMessages/mutations.ts:47-59 | the content is one text part followed by one file part per document |
| ChatMutations.CreateContentRoundTrip | convex/chatMessages/mutations.ts:47-59 | the stored content gives back the text and the document ids in their order |
| ChatMutations.DescendsStep | convex/chatMessages/mutations.ts:101-106 | a child of a descendant is a descendant |
| ChatMutations.ClosedHoldsDescendants | convex/chatMessages/mutations.ts:94-108 | a set of ids closed under children that holds the root holds every descendant |
| ChatMutations.QueueChildren | convex/chatMessages/mutations.ts:102-107 | each child not yet marked is marked and queued; marked children are skipped |
| ChatMutations.CascadeIds | convex/chatMessages/mutations.ts:94-108 | the breadth-first search marks the message and exactly its descendants, and terminates because each id is queued once |
| ChatMutations.Remove | convex/chatMessages/mutations.ts:66-113 | an unknown id deletes nothing; without cascade exactly the message goes; with cascade the message and all its descendants go; every other row stays unchanged |
| MessageGroups.CloseGroup | src/components/chat/messages/messages.tsx:46-48 | closing a non-empty open group keeps every group non-empty and starting with its only human message, and appends its messages to the flattened groups |
| MessageGroups.GroupConversation | src/components/chat/messages/messages.tsx:39-64 | read back in order the groups are exactly the human, AI and tool messages; no group is empty; each group but possibly the first starts with a human message and holds no other |
| MessageGroups.ItemsTextConcat | src/components/chat/messages/messages.tsx:79-81 | the copied text of two runs of items is the text of the first followed by that of the second |
| MessageGroups.ItemsTextWithoutText | src/components/chat/messages/messages.tsx:80 | content with no text item copies as the empty string |
| MessageGroups.ItemsTextAllText | src/components/chat/messages/messages.tsx:79-81 | content of text items only copies as their texts run together, in order, with nothing in between |
| MessageGroups.AllAIContentAppend | src/components/chat/messages/messages.tsx:72-86 | an AI message adds its text after a blank line, or is the whole text when it is the first; any other message adds nothing |
| MessageGroups.HasAIOrToolIffAnswered | src/components/chat/messages/messages.tsx:100-102 | a group from the grouping has AI or tool messages exactly when it holds more than its opening human message |
| MessageGroups.ConcatShown | src/components/chat/messages/messages.tsx:52-55 | every message of every group is human, AI or tool |
| StreamGroups.ToolName | src/components/chat/messages/hooks/useStreamProcessor.ts:61 | a tool group's name is never empty |
| StreamGroups.Flush | src/components/chat/messages/hooks/useStreamProcessor.ts:34-39 | after a flush the buffer is empty and the pending tools are unchanged |
| StreamGroups.Step | src/components/chat/messages/hooks/useStreamProcessor.ts:41-89 | one event keeps the state well formed: every pending id names an incomplete tool group |
| StreamGroups.FoldAppend | src/components/chat/messages/hooks/useStreamProcessor.ts:41-89 | folding one more event is one more step |
| StreamGroups.HandleChunk | src/components/chat/messages/hooks/useStreamProcessor.ts:42-88 | the in-place update of groups, buffer and tool map is `Step` on the state before it |
| StreamGroups.GroupChunks | src/components/chat/messages/hooks/useStreamProcessor.ts:24-95 | no events give no groups; otherwise the groups are the fold of all events followed by a final flush |
| StreamGroups.GroupsTextToolUpdate | src/components/chat/messages/hooks/useStreamProcessor.ts:73-76 | updating a tool group in place does not change the AI text |
| StreamGroups.AccumulateText | src/components/chat/messages/hooks/useStreamProcessor.ts:45-55 | a stream event appends exactly its content, and its reasoning only when present |
| StreamGroups.FlushText | src/components/chat/messages/hooks/useStreamProcessor.ts:34-39 | a flush moves the buffer's text to the end of the groups' text |
| StreamGroups.FoldText | src/components/chat/messages/hooks/useStreamProcessor.ts:41-89 | the groups' text followed by the buffer's text is all the streamed text |
| StreamGroups.NoTextLost | src/components/chat/messages/hooks/useStreamProcessor.ts:49-52 | read in order, the AI groups' contents are all the streamed contents and their reasoning all the streamed reasoning |
| StreamGroups.FoldCount | src/components/chat/messages/hooks/useStreamProcessor.ts:41-89 | the AI groups plus an open buffer number the runs of stream events, and the buffer is open exactly inside a run |
| StreamGroups.OneAIGroupPerRun | src/components/chat/messages/hooks/useStreamProcessor.ts:45-91 | there are exactly as many AI groups as runs of stream events not interrupted by a tool event |
| StreamGroups.AdjacentAIGroups | src/components/chat/messages/hooks/useStreamProcessor.ts:70-91 | two AI groups can be adjacent: tool start, stream, tool end of the same id, stream gives a tool group and then two AI groups |
| StreamGroups.UnhandledIgnored | src/components/chat/messages/hooks/useStreamProcessor.ts:44-88 | events of other kinds change nothing: dropping them gives the same groups |
| StreamGroups.ToolStartPends | src/components/chat/messages/hooks/useStreamProcessor.ts:57-68 | a tool start flushes the buffer, appends an incomplete tool group with the event's name and input, and makes it pending under `run_id ?? name` |
| StreamGroups.ToolEndCompletes | src/components/chat/messages/hooks/useStreamProcessor.ts:70-87 | a tool end with a pending id completes that group in place with the output, leaves the other groups and drops the id; an unknown id appends a complete tool group |
| StreamGroups.ParsePage | src/hooks/chats/use-stream.ts:62-68 | a page's events are all its documents' chunks, in order |
| StreamGroups.ChatStream.constructor | src/hooks/chats/use-stream.ts:27-28 | a new stream has no events and no last-chunk time |
| StreamGroups.ChatStream.ChangeChat | src/hooks/chats/use-stream.ts:33-37 | changing chat clears the events and the last-chunk time |
| StreamGroups.ChatStream.ReceivePage | src/hooks/chats/use-stream.ts:62-72 | a non-empty page appends its events and records its last document's time; an empty page changes nothing |
| StreamGroups.ChatStream.ChunkGroups | src/hooks/chats/use-stream.ts:92-154 | the groups are those of the same fold over the events received so far |
| MessageQueue.QueueOf | src/hooks/chats/use-message-queue.ts:40 | an unknown chat's queue is empty |
| MessageQueue.FirstIndexOf | src/hooks/chats/use-message-queue.ts:59 | no index iff no message has the id; otherwise the first index holding it |
| MessageQueue.Apply | src/hooks/chats/use-message-queue.ts:61 | an update keeps the message's id and creation time |
| MessageQueue.UpdateFirst | src/hooks/chats/use-message-queue.ts:57-64 | same length; an unknown id changes nothing; only the first message with the id takes the updates, every other message is unchanged |
| MessageQueue.Reorder | src/hooks/chats/use-message-queue.ts:67-76 | always a permutation of the queue; any index out of range changes nothing; otherwise the moved message lands at `toIndex` |
| MessageQueue.ReorderUndo | src/hooks/chats/use-message-queue.ts:70-73 | moving a message back to where it came from restores the queue |
| MessageQueue.RemoveAllMembers | src/hooks/chats/use-message-queue.ts:78-83 | a message stays exactly when it was queued under another id |
| MessageQueue.Queues.constructor | src/hooks/chats/use-message-queue.ts:23 | no chat has a queue at first |
| MessageQueue.Queues.GetQueue | src/hooks/chats/use-message-queue.ts:85-87 | an unknown chat has an empty queue |
| MessageQueue.Queues.Enqueue | src/hooks/chats/use-message-queue.ts:25-37 | the message is appended to that chat's queue; every other chat is untouched |
| MessageQueue.Queues.Dequeue | src/hooks/chats/use-message-queue.ts:39-50 | an empty queue gives nothing and changes nothing; otherwise the head is returned and the tail remains; other chats are untouched |
| MessageQueue.Queues.Update | src/hooks/chats/use-message-queue.ts:52-65 | only that chat's queue changes, to `UpdateFirst` of it |
| MessageQueue.Queues.ReorderMessage | src/hooks/chats/use-message-queue.ts:67-76 | only that chat's queue changes, to `Reorder` of it |
| MessageQueue.Queues.Remove | src/hooks/chats/use-message-queue.ts:78-83 | only that chat's queue changes, losing every message with the id |
| MessageQueue.Queues.Clear | src/hooks/chats/use-message-queue.ts:89-94 | that chat's queue becomes empty and the others are untouched |
| Artifacts.SkipSpacesSound | src/components/artifacts/utils.ts:24 | `\s*` passes over white space only and stops at the end or at a non-space |
| Artifacts.QuoteAtSound | src/components/artifacts/utils.ts:24 | `[^"]+` passes over no quote and stops at the end or at a quote |
| Artifacts.Attribute | src/components/artifacts/utils.ts:24 | `name="value"` read at a position: the value and a position after it |
| Artifacts.AttributeSound | src/components/artifacts/utils.ts:24 | an attribute read is the text `name="value"` standing there, with a non-empty value free of quotes |
| Artifacts.Attributes | src/components/artifacts/utils.ts:24 | the groups read name every required field, leaving out only optional ones, and end after where they start |
| Artifacts.AttributesFit | src/components/artifacts/utils.ts:24 | the attributes read name the groups in order, leaving out only optional ones, and are well formed |
| Artifacts.AttributesAt | src/components/artifacts/utils.ts:24 | the attributes read are exactly the text from the start position to where reading ends |
| Artifacts.ExtraSound | src/components/artifacts/utils.ts:24 | `[^>]*>` ends at the first `>` after the attributes |
| Artifacts.FitsHeader | src/components/artifacts/utils.ts:24 | what the header groups read is id, type, optional language and title, in that order |
| Artifacts.MatchHeader | src/components/artifacts/utils.ts:23-25 | a header match ends inside the chunk |
| Artifacts.MatchHeaderSound | src/components/artifacts/utils.ts:23-29 | what is matched is a header with non-empty id, type and title, and an optional language, standing at the chunk's start |
| Artifacts.MatchHeaderComplete | src/components/artifacts/utils.ts:23-29 | a header of that form at a chunk's start is read back as itself, whatever follows it |
| Artifacts.MakeHeaderInverse | src/components/artifacts/utils.ts:28 | building a header from its own attributes gives it back |
| Artifacts.GapAttributeMismatch | src/components/artifacts/utils.ts:24 | an attribute with another name where a group expects `name` does not match |
| Artifacts.ChunkParts | src/components/artifacts/utils.ts:21-56 | a chunk gives one or two parts, and every part after the first is text |
| Artifacts.ChunkWithoutHeader | src/components/artifacts/utils.ts:53-55 | a chunk without a header of the expected form is kept whole as text, `<artifact` included |
| Artifacts.LeadParts | src/components/artifacts/utils.ts:17-19 | text before the first tag is a text part only when non-empty |
| Artifacts.Chunks | src/components/artifacts/utils.ts:15 | splitting on `<artifact` always gives at least one chunk |
| Artifacts.ReadChunk | src/components/artifacts/utils.ts:22-55 | one round of the loop pushes exactly the chunk's parts |
| Artifacts.ParseContent | src/components/artifacts/utils.ts:13-59 | the loop returns the lead part followed by every chunk's parts |
| Artifacts.ChunkOfHeader | src/components/artifacts/utils.ts:27-52 | a chunk starting with a header gives that artifact with the trimmed text up to the first end tag, then the text after the tag when non-empty; without an end tag all the rest is content |
| Artifacts.ChunkRoundTrip | src/components/artifacts/utils.ts:27-52 | a header, a body without an end tag, the end tag and trailing text are read back as the artifact with its body trimmed, then the trailing text |
| Artifacts.CutBody | src/components/artifacts/utils.ts:33-39 | a body without an end tag is cut at the end tag after it |
| Artifacts.ArtifactsOfMembers | src/components/artifacts/utils.ts:62-69 | the artifacts found are exactly those of the artifact parts |
| Artifacts.ChunkPartsArtifact | src/components/artifacts/utils.ts:21-56 | a chunk yields at most one artifact, whose id, type and title are non-empty |
| Artifacts.ChunksArtifacts | src/components/artifacts/utils.ts:21-56 | the chunks yield at most one artifact each, every one with a non-empty id, type and title |
| Artifacts.ParseArtifactsBound | src/components/artifacts/utils.ts:62-69 | `parseArtifacts` finds at most one artifact per `<artifact` occurrence, each with a non-empty id, type and title |
| Artifacts.PlainText | src/components/artifacts/utils.ts:13-19 | text without any tag is one text part, or nothing when empty |
| ChatStore.GroupedMessages | src/store/chatStore.ts:55-57 | no thread gives no groups; otherwise one group per human message, whose flattening is the thread from its first human message on |
| ChatStore.LastChatMessage | src/store/chatStore.ts:58-62 | an id exactly when there is a non-empty thread, and it is the id of the thread's last message |
| ChatStore.LastChatMessageAppend | src/store/chatStore.ts:58-62 | a message added at the end of a thread becomes the last chat message; no thread or an empty one gives none |
| ChatStore.StoredArtifactsMembers | src/store/chatStore.ts:83-102 | the stored artifacts are exactly those parsed from AI responses whose content is a string; human inputs and tool messages never contribute |
| ChatStore.MessageArtifacts | src/store/chatStore.ts:86-98 | one response message yields the artifacts of its text when it is an AI message with string content, and none otherwise |
| ChatStore.PushResponseArtifacts | src/store/chatStore.ts:85-100 | the inner loop appends the artifacts of each response in order |
| ChatStore.MergeByIdProperties | src/store/chatStore.ts:117-121 | merging keeps what was there as a prefix, adds only streamed artifacts each with an id new at its place, and leaves every streamed id present |
| ChatStore.MergeByIdCovered | src/store/chatStore.ts:117-121 | streamed artifacts whose ids are all present add nothing |
| ChatStore.MergeByIdIdempotent | src/store/chatStore.ts:117-121 | merging the same stream twice changes nothing the second time |
| ChatStore.PushNewById | src/store/chatStore.ts:117-121 | the de-duplicating loop computes `MergeById` |
| ChatStore.AllArtifacts | src/store/chatStore.ts:72-125 | the atom yields the stored artifacts of every group in order, then the new-id artifacts of the concatenated stream text |
| ChatStore.AllArtifactsLayout | src/store/chatStore.ts:83-122 | the stored artifacts come first, unchanged and in order; after them only streamed artifacts, each with a new id; every streamed id is present |
| ChatStore.NoStreamTextNoStreamArtifacts | src/store/chatStore.ts:104-121 | a stream without AI text adds nothing |
| AgentTools.GetLastMessage | convex/langchain/helpers.ts:161-175 | the greatest index holding a message of the requested kind, or none exactly when there is no such message |
| AgentTools.DescribeTool | convex/langchain/helpers.ts:190-193 | the name is kept; a missing or empty description becomes "No description available" |
| AgentTools.DescribeAllAt | convex/langchain/helpers.ts:189-194 | the k-th described tool is the k-th tool described |
| AgentTools.PushDescribed | convex/langchain/helpers.ts:189-194 | the forEach appends every tool, described, in order |
| AgentTools.GetAvailableTools | convex/langchain/helpers.ts:177-220 | the list built is `AvailableTools` of the chat's sources |
| AgentTools.AvailableToolsLayout | convex/langchain/helpers.ts:186-219 | MCP tools first, then vector search exactly with a project, then web search exactly when enabled, then the Google tools |
| AgentTools.ToolsDescriptionLines | convex/langchain/helpers.ts:222-235 | an empty list gives "No tools are currently available."; otherwise the text splits at line breaks into one `- name: description` line per tool |
| AgentTools.LineHasNoBreak | convex/langchain/helpers.ts:233 | a tool line whose name and description have no line break is one line |
| AgentTools.CreateAgent | convex/langchain/helpers.ts:50-140 | without conductor mode one agent with all tools; in conductor mode an error iff no MCP server has tools, otherwise a supervisor |
| AgentTools.RetrievalOnlyWhenEnabled | convex/langchain/helpers.ts:60-65 | vector search is granted exactly with a project and web search exactly when enabled, in both agent shapes |
| PlannerGraph.RouteStart | convex/langchain/agent.ts:32-46 | a model without tools always goes to "simple"; otherwise "planner" exactly in orchestrator mode, else "baseAgent" |
| PlannerGraph.Recent | convex/langchain/agent.ts:49 | at most the last 20 messages, a suffix of the conversation, all of it when it is short |
| PlannerGraph.FilterMessagesForReplanning | convex/langchain/agent.ts:48-74 | the backward scan with its skip flag computes `Replanning(messages)` |
| PlannerGraph.SurvivorsSound | convex/langchain/agent.ts:54-71 | survivors are no more than the messages scanned, come from them and are never tool messages |
| PlannerGraph.ReplanningBounded | convex/langchain/agent.ts:48-74 | the replanner sees at most 20 messages, none a tool message, all from the conversation |
| PlannerGraph.SurvivorsInOrder | convex/langchain/agent.ts:54-71 | the survivors are exactly the messages at the positions that survive, in the order of those positions; no surviving position is dropped |
| PlannerGraph.AnsweredCallDropped | convex/langchain/agent.ts:57-66 | the nearest AI message with tool calls before a dropped tool message is dropped too |
| PlannerGraph.PlainMessagesSurvive | convex/langchain/agent.ts:62-70 | a human message always survives, and so does an AI message without tool calls |
| PlannerGraph.PlannerAgent | convex/langchain/agent.ts:171-234 | no plan or an empty plan gives no update; the node never sets messages |
| PlannerGraph.PlannerAgentConsumesHead | convex/langchain/agent.ts:211-233 | the new plan is the old plan minus its head; the past steps are kept as a prefix with one completed step for a single item or one per sub-step, in order, for a parallel item |
| PlannerGraph.PlannerAgentShortens | convex/langchain/agent.ts:181-182 | each run shortens a non-empty plan by one item |
| PlannerGraph.ApplyReplan | convex/langchain/agent.ts:291-326 | answering the user clears plan and past steps with one AI message; continuing replaces the plan; any other answer fails |
| PlannerGraph.StepsViewNoTools | convex/langchain/agent.ts:278-286 | the past steps shown to the replanner hold no tool message |
| PlannerGraph.ShouldEndPlanner | convex/langchain/agent.ts:329-335 | "true" exactly when the plan is missing or empty, "false" otherwise |
| PlannerGraph.AnswerEndsLoop | convex/langchain/agent.ts:321-335 | after the replanner answers the user the loop ends |
| CheckpointStore.UpsertCheckpointEffect | convex/checkpointer/mutations.ts:37-63 | only the row with the key is patched or added; every other row keeps its place and contents; the key then leads to a row with the new checkpoint, metadata and parent |
| CheckpointStore.UpsertCheckpointIdempotent | convex/checkpointer/mutations.ts:37-63 | repeating the same `putCheckpoint` changes nothing, whatever the time of the repeat |
| CheckpointStore.UpsertCheckpointUnique | convex/checkpointer/mutations.ts:37-63 | at most one row per key, before and after |
| CheckpointStore.InsertBlobsKeepsRows | convex/checkpointer/mutations.ts:66-82 | existing blob rows are never changed; new rows are only appended, each one of the given blobs |
| CheckpointStore.FirstBlobWins | convex/checkpointer/mutations.ts:66-82 | the blob a key leads to stays the one first stored under it |
| CheckpointStore.InsertBlobsStores | convex/checkpointer/mutations.ts:66-82 | afterwards every given blob of the call's namespace can be found by its key |
| CheckpointStore.InsertBlobsPresent | convex/checkpointer/mutations.ts:78-81 | blobs whose keys are all present insert nothing |
| CheckpointStore.InsertBlobsUnique | convex/checkpointer/mutations.ts:66-82 | at most one blob row per key, before and after |
| CheckpointStore.InsertBlobsIdempotent | convex/checkpointer/mutations.ts:66-82 | storing the same blobs again changes nothing |
| CheckpointStore.UpsertWriteEffect | convex/checkpointer/mutations.ts:105-128 | one write changes only the row it looks up; a row is appended only when the key was missing |
| CheckpointStore.UpsertWriteOther | convex/checkpointer/mutations.ts:105-128 | a write to another key leaves the row a key leads to in place with its contents |
| CheckpointStore.UpsertWriteLands | convex/checkpointer/mutations.ts:118-128 | the write's channel, type and blob land in the row its key leads to |
| CheckpointStore.LastWriteWins | convex/checkpointer/mutations.ts:105-129 | after a batch, the row a key leads to holds the channel, type and blob of the batch's last write to that key |
| CheckpointStore.UpsertWritesUnique | convex/checkpointer/mutations.ts:105-129 | at most one write row per key, before and after |
| CheckpointStore.Store.constructor | convex/checkpointer/mutations.ts:5-84 | the three tables start empty |
| CheckpointStore.Store.PutCheckpoint | convex/checkpointer/mutations.ts:24-83 | the checkpoint table is upserted, blobs are inserted first-write-wins, writes are untouched, and key uniqueness is kept |
| CheckpointStore.Store.PutWrites | convex/checkpointer/mutations.ts:102-130 | each write is upserted in turn, the other tables are untouched, and key uniqueness is kept |
| CheckpointQueries.GetCheckpoint | convex/checkpointer/queries.ts:12-42 | the result is a row of the thread; with an id it has that id and is absent only when no row has the key; without an id it is absent only when the thread has no row |
| CheckpointQueries.GetCheckpointIsNewest | convex/checkpointer/queries.ts:28-40 | without an id the result is the thread's newest row |
| CheckpointQueries.GetAfterPut | convex/checkpointer/queries.ts:15-26 | reading a checkpoint by its id after `putCheckpoint` gives what was put |
| CheckpointQueries.NewCheckpointIsLatest | convex/checkpointer/queries.ts:28-40 | a checkpoint put under a new key becomes the thread's newest |
| CheckpointQueries.GetChannelValues | convex/checkpointer/queries.ts:53-84 | the loop returns, for each entry in order, the first matching blob if there is one |
| CheckpointQueries.ChannelValuesMembers | convex/checkpointer/queries.ts:60-83 | a value is returned exactly when an entry's channel and version lead to a blob, and it carries that blob's channel, type and data |
| CheckpointQueries.ChannelValuesBound | convex/checkpointer/queries.ts:60-83 | at most one value per entry |
| CheckpointQueries.IdxLeTotalPreorder | convex/checkpointer/queries.ts:115 | the `idx` order is total and transitive |
| CheckpointQueries.GetPendingSends | convex/checkpointer/queries.ts:95-120 | without a parent id there are no sends |
| CheckpointQueries.PendingSendsSpec | convex/checkpointer/queries.ts:102-119 | the sends are all of the parent's `__pregel_tasks__` writes and no others, in ascending `idx` |
| CheckpointQueries.TaskIdxLeTotalPreorder | convex/checkpointer/queries.ts:146 | the (task id, idx) order is total and transitive |
| CheckpointQueries.GetPendingWrites | convex/checkpointer/queries.ts:131-153 | one entry per write of the checkpoint |
| CheckpointQueries.PendingWritesSpec | convex/checkpointer/queries.ts:134-152 | every write of the checkpoint and no other, ordered by task id and then by `idx` |
| CheckpointQueries.NewerFirstTotalPreorder | convex/checkpointer/queries.ts:221-223 | newest-first is total and transitive |
| CheckpointQueries.SliceToLimit | convex/checkpointer/queries.ts:226 | a prefix: a positive limit keeps at most that many rows, and a negative one drops that many from the end |
| CheckpointQueries.ListedRows | convex/checkpointer/queries.ts:178-222 | exactly the rows (as a multiset) that pass the thread, id, `before` and metadata filters, ordered newest first |
| CheckpointQueries.ListCheckpoints | convex/checkpointer/queries.ts:225-226 | a prefix of the newest-first rows: with a positive limit exactly min(limit, count) rows; with no limit or 0, all of them |
| CheckpointQueries.ListCheckpointsSpec | convex/checkpointer/queries.ts:167-227 | only the thread's rows that match the id, precede `before` and pass every metadata filter, newest first; with no limit or 0, every such row; no matching row cut off by the limit is newer than the last one kept |
| RepoTree.FindItemInTree | src/store/githubStore.ts:79-88 | a found item has the path searched for |
| RepoTree.FindIsPreOrderFirst | src/store/githubStore.ts:79-88 | the search returns exactly the first item in pre-order with the path, and nothing when there is none |
| RepoTree.FindIffPresent | src/store/githubStore.ts:79-88 | the search finds something exactly when the path occurs somewhere in the tree |
| RepoTree.GetAllChildPaths | src/store/githubStore.ts:90-99 | the paths of every descendant, in pre-order, without the item's own |
| RepoTree.SubtreePaths | src/store/githubStore.ts:90-99 | the item's path followed by its descendants' paths is its subtree in pre-order |
| RepoTree.Apply | src/store/githubStore.ts:185-188 | an updater keeps the item's path and type, and its children unless it sets new ones |
| RepoTree.UpdateItemInTree | src/store/githubStore.ts:101-118 | the tree keeps its length, and each item its path and type |
| RepoTree.UpdateAtRoute | src/store/githubStore.ts:101-118 | at every position reached without passing a match, the updated tree has an item; a matching item becomes exactly the updater's result, its subtree not searched; any other item keeps every field but its children |
| RepoTree.UpdateRoutesExisted | src/store/githubStore.ts:101-118 | every position of the updated tree reached without passing a match was a position of the tree before, so the update adds no item outside a match |
| RepoTree.UpdateMissingIsIdentity | src/store/githubStore.ts:101-118 | updating a path that is not in the tree leaves the tree unchanged |
| RepoTree.UpdateThenFind | src/store/githubStore.ts:101-118 | after an update the search finds the updated version of what it found before |
| RepoTree.UpdateKeepsPaths | src/store/githubStore.ts:101-118 | an update that leaves children alone keeps every path of the tree, in order |
| RepoTree.FilesPlusFolders | src/store/githubStore.ts:127-131 | every item is a file or a folder, so the two counts add up to the number of items |
| RepoTree.CountItemsRecursively | src/store/githubStore.ts:120-141 | the counts are the files and the folders of the whole tree in pre-order, which together are all its items |
| RepoViews.FilesOfMembers | src/hooks/use-github.ts:131-142 | the files kept are exactly the entries that are files |
| RepoViews.GetAllFiles | src/hooks/use-github.ts:131-142 | every file of the tree, nested ones included, in pre-order |
| RepoViews.AddItems | src/hooks/use-github.ts:284-291 | the shared result is extended by the visible rows of the list |
| RepoViews.FlattenedItems | src/hooks/use-github.ts:282-294 | the rows are each item followed by the rows of its children when it is expanded |
| RepoViews.VisibleAllExpanded | src/hooks/use-github.ts:282-294 | with everything expanded the rows are the whole tree in pre-order |
| RepoViews.VisibleCollapsed | src/hooks/use-github.ts:282-294 | with nothing expanded the rows are the top-level items |
| RepoViews.VisibleInTree | src/hooks/use-github.ts:282-294 | every row is an item of the tree |
| RepoViews.WithPathInMembers | src/components/chat/input/github/gh-text.ts:29-38 | the matches are exactly the entries whose path is a target |
| RepoViews.SearchItems | src/components/chat/input/github/gh-text.ts:29-38 | the shared result is extended by the list's matches in pre-order |
| RepoViews.FindAllItemsInTree | src/components/chat/input/github/gh-text.ts:22-42 | exactly the tree items whose path is one of the targets, in pre-order |
| PathSets.WithItemSpec | src/store/githubStore.ts:171-176 | adding keeps the old selection as a prefix, holds the path afterwards, adds nothing else and creates no duplicate |
| PathSets.WithoutMembers | src/store/githubStore.ts:178-181 | the filter keeps exactly the selected paths outside the removed set |
| PathSets.WithoutNothing | src/store/githubStore.ts:178-181 | filtering out paths that are not selected changes nothing |
| PathSets.AppendNewSpec | src/store/githubStore.ts:198-211 | the push loop keeps the old selection as a prefix, adds exactly the new paths and creates no duplicate |
| PathSets.AppendNewLength | src/store/githubStore.ts:198-211 | the selection grows by at most the number of paths pushed |
| PathSets.DedupSpec | src/store/github.ts:146 | a set built from a list holds each of its paths exactly once and nothing else |
| GitHubStore.Toggled | src/store/githubStore.ts:160-169 | the path's membership flips and every other path's stays |
| GitHubStore.ToggledTwice | src/store/githubStore.ts:160-169 | toggling a directory twice gives back the expanded set |
| GitHubStore.SubtreeOf | src/store/githubStore.ts:206 | the item's path and its descendants' are its subtree in pre-order |
| GitHubStore.SelectRecursivelySpec | src/store/githubStore.ts:193-214 | a path outside the tree changes nothing; otherwise the old selection stays a prefix, the path and all its descendants are added, and no duplicate is created |
| GitHubStore.DeselectRecursivelySpec | src/store/githubStore.ts:216-229 | a path outside the tree changes nothing; otherwise exactly the path and its descendants leave the selection |
| GitHubStore.SelectAddsPath | src/store/githubStore.ts:193-214 | selecting a path of the tree selects it and keeps every path already selected |
| GitHubStore.DeselectRemovesPath | src/store/githubStore.ts:216-229 | deselecting a path of the tree unselects it |
| GitHubStore.SelectAfterNewTokens | src/store/githubStore.ts:183-190 | storing a token count does not change what selecting any path adds |
| GitHubStore.SubtreeAfterNewTokens | src/store/githubStore.ts:183-190 | storing a token count does not change the subtree paths found at any path |
| GitHubStore.PushSubtree | src/store/githubStore.ts:198-211 | the loop pushes the item's path and each descendant path not yet selected, in order |
| GitHubStore.GitHubStore.constructor | src/store/githubStore.ts:64-76 | the initial state: empty url, branch "main", nothing loaded or selected, no tokens |
| GitHubStore.GitHubStore.SetRepoUrl | src/store/githubStore.ts:147 | only the url changes |
| GitHubStore.GitHubStore.SetBranch | src/store/githubStore.ts:148 | only the branch changes |
| GitHubStore.GitHubStore.SetBranches | src/store/githubStore.ts:149 | only the branch list changes |
| GitHubStore.GitHubStore.SetItems | src/store/githubStore.ts:150 | only the tree changes |
| GitHubStore.GitHubStore.SetSelectedItems | src/store/githubStore.ts:151 | only the selection changes |
| GitHubStore.GitHubStore.SetLoading | src/store/githubStore.ts:152 | only the loading flag changes |
| GitHubStore.GitHubStore.SetLoadingBranches | src/store/githubStore.ts:153 | only the branch-loading flag changes |
| GitHubStore.GitHubStore.SetLoadSuccess | src/store/githubStore.ts:154 | only the success flag changes |
| GitHubStore.GitHubStore.SetExpandedDirs | src/store/githubStore.ts:155 | only the expanded set changes |
| GitHubStore.GitHubStore.SetTotalTokens | src/store/githubStore.ts:156 | only the token total changes |
| GitHubStore.GitHubStore.SetDialogOpen | src/store/githubStore.ts:157 | only the dialog flag changes |
| GitHubStore.GitHubStore.ToggleExpandedDir | src/store/githubStore.ts:160-169 | only the expanded set changes, with the path's membership flipped |
| GitHubStore.GitHubStore.AddSelectedItem | src/store/githubStore.ts:171-176 | only the selection changes: the path is appended unless already there |
| GitHubStore.GitHubStore.RemoveSelectedItem | src/store/githubStore.ts:178-181 | only the selection changes: every copy of the path goes |
| GitHubStore.GitHubStore.UpdateItemTokens | src/store/githubStore.ts:183-190 | only the tree changes: the items with the path get the token count |
| GitHubStore.GitHubStore.UpdateItemChildren | src/store/githubStore.ts:231-240 | only the tree changes; the found item gets the children and is marked loaded and expanded; a missing path changes nothing |
| GitHubStore.GitHubStore.SetItemLoading | src/store/githubStore.ts:242-249 | only the tree changes: the items with the path get the loading flag |
| GitHubStore.GitHubStore.SelectItemRecursively | src/store/githubStore.ts:193-214 | only the selection changes, to the recursive selection |
| GitHubStore.GitHubStore.DeselectItemRecursively | src/store/githubStore.ts:216-229 | only the selection changes, to the recursive deselection |
| GitHubStore.GitHubStore.GetItemCounts | src/store/githubStore.ts:251-255 | the files and folders of the whole tree, together all its items |
| GitHubStore.GitHubStore.ResetState | src/store/githubStore.ts:257-270 | back to the initial state |
| GitHubAtoms.FileTokens | src/store/github.ts:69-72 | a positive count comes from a file entry with the path |
| GitHubAtoms.SumTokensWithout | src/store/github.ts:30-45 | filtering paths out of a selection never adds tokens |
| GitHubAtoms.DeselectSubtracts | src/store/github.ts:92-96 | deselecting a selected file takes exactly its tokens off the usage |
| GitHubAtoms.WithItemTokens | src/store/github.ts:111-112 | adding a path already present changes nothing; otherwise it adds that file's tokens |
| GitHubAtoms.AppendNewTokens | src/store/github.ts:171 | making a list duplicate-free never adds tokens |
| GitHubAtoms.DedupTokens | src/store/github.ts:171 | a set built from paths holds no more tokens than the paths summed one by one |
| GitHubAtoms.WithoutKeepsNoDuplicates | src/store/github.ts:92-95 | removing from a set keeps it a set |
| GitHubAtoms.SumFileTokens | src/store/github.ts:157-165 | the loop adds, for each path, the count of the first file entry with it |
| GitHubAtoms.SelectionAtoms.constructor | src/store/github.ts:16-27 | nothing selected, an empty listing and a 32000-token maximum |
| GitHubAtoms.SelectionAtoms.TokenUsage | src/store/github.ts:30-45 | the tokens of the selected paths that name a file of the listing |
| GitHubAtoms.SelectionAtoms.WouldExceedLimit | src/store/github.ts:62-76 | true exactly when the usage plus the file's tokens is past the maximum |
| GitHubAtoms.SelectionAtoms.ToggleFileSelection | src/store/github.ts:86-116 | deselection always succeeds and removes the file; selection is refused, changing nothing, when the file's tokens would take usage past the maximum, and otherwise adds it; a usage within the maximum stays within it |
| GitHubAtoms.SelectionAtoms.ToggleFolderSelection | src/store/github.ts:118-141 | deselection always succeeds; selection is refused, changing nothing, exactly when usage is at the limit |
| GitHubAtoms.SelectionAtoms.SetSelectedFiles | src/store/github.ts:143-148 | the file selection becomes the given paths as a set; nothing else changes |
| GitHubAtoms.SelectionAtoms.SelectAllFiles | src/store/github.ts:150-175 | succeeds exactly when the listed files' tokens fit the maximum, then both selections become the given sets; otherwise nothing changes |
| GitHubAtoms.SelectionAtoms.ClearAllSelections | src/store/github.ts:177-180 | both selections become empty and the count is 0 |
| TokenCounter.EstimateTokens | src/components/chat/input/github/token-counter.ts:13-16 | 0 exactly for empty text, otherwise the least count whose four characters per token cover the text |
| TokenCounter.EstimateMonotone | src/components/chat/input/github/token-counter.ts:13-16 | a longer text never has a smaller estimate |
| TokenCounter.ExceedMonotone | src/components/chat/input/github/token-counter.ts:53-59 | a larger addition exceeds the limit whenever a smaller one does; an addition that does not exceed it fits |
| TokenCounter.FormatTokenCount | src/components/chat/input/github/token-counter.ts:23-31 | plain below 1000, `K` below a million, `M` from there |
| TokenCounter.SmallCountIsPlainDecimal | src/components/chat/input/github/token-counter.ts:24-25 | below 1000 a count is shown as one to three decimal digits that read back as the count |
| GhText.ProcessItem | src/components/chat/input/github/gh-text.ts:90-116 | a file without content takes the fetched content and size only when the fetch succeeded with content; folders and files with content are copied unchanged; path, type and children never change |
| GhText.NeedsFetch | src/components/chat/input/github/gh-text.ts:95 | only files without content are fetched |
| GhText.SameShapeSameCounts | src/components/chat/input/github/gh-text.ts:119-131 | processing does not change the file and folder counts |
| GhText.ProcessItems | src/components/chat/input/github/gh-text.ts:88-117 | one processed item per selected item, in order, each processed as above; exactly the files without content are fetched, in order |
| GhText.PrepareGitHubData | src/components/chat/input/github/gh-text.ts:73-134 | an unparsable URL is an error "Invalid GitHub URL" and fetches nothing; otherwise the data holds the URL, the branch, the processed selected items and the counts of files and folders among them |
| GhText.ParseGitHubDocument | src/components/chat/input/github/gh-text.ts:240-260 | a document is accepted exactly when its URL and branch are non-empty and its items and metadata are present; a refusal carries the "Failed to parse GitHub document: " prefix |
| GhText.StoredDocumentRoundTrip | src/components/chat/input/github/gh-text.ts:240-260 | data saved with a non-empty URL and branch reads back unchanged |
| GhText.EmptyBranchIsRefused | src/components/chat/input/github/gh-text.ts:245-252 | data saved with an empty branch is refused when read back |
| GhText.GetGitHubDocumentSummary | src/components/chat/input/github/gh-text.ts:265-279 | the repository is owner/repo, and branch, counts and time come from the data |
| GhText.FilterByTypeCount | src/components/chat/input/github/gh-text.ts:272-277 | the items kept for one type are as many as the list holds of that type |
| GhText.SummaryListsEveryItem | src/components/chat/input/github/gh-text.ts:272-277 | as many file paths as top-level files and folder paths as folders, so one path per item |
| GhText.SummaryFileListMembers | src/components/chat/input/github/gh-text.ts:272-274 | a path is in the file list exactly when a top-level selected file has it |
| FileTree.Segments | src/components/chat/input/github/file-tree.tsx:67 | a split always yields at least one segment |
| FileTree.OneSegmentIffNoSlash | src/components/chat/input/github/file-tree.tsx:67-69 | a path has one segment exactly when it holds no `/` |
| FileTree.ParentThenLastSegment | src/components/chat/input/github/file-tree.tsx:74 | the parent path, a `/` and the last segment give back a nested path |
| FileTree.Placement | src/components/chat/input/github/file-tree.tsx:66-86 | an item goes under a parent only when it has more than one segment and its parent path is listed; otherwise it is a root |
| FileTree.PlacedOnce | src/components/chat/input/github/file-tree.tsx:66-86 | each item lands in exactly one list, as often as it is listed |
| FileTree.GetChildren | src/components/chat/input/github/file-tree.tsx:91 | a path never recorded has no children |
| FileTree.BuildItemsMap | src/components/chat/input/github/file-tree.tsx:61-63 | the map's keys are exactly the listed paths, each leading to an item with that path |
| FileTree.PlaceItem | src/components/chat/input/github/file-tree.tsx:67-85 | the item is appended to the roots or to its parent's children; no other list changes and no empty list is recorded |
| FileTree.OrganizeItemsHierarchically | src/components/chat/input/github/file-tree.tsx:55-93 | the roots and each path's children are exactly the items placed there, in listing order; only paths that received a child are recorded |
| FileTree.PathsOfTypeMembers | src/components/chat/input/github/file-tree.tsx:40-45 | a path is listed exactly when a listed item of that type has it |
| FileTree.HandleSelectAll | src/components/chat/input/github/file-tree.tsx:29-52 | with anything selected the selection is cleared; with nothing selected and usage at the limit nothing changes; otherwise every listed file and folder is selected unless the files' tokens exceed the maximum, which shows the limit error |
| GitHubUrl.UpToSlash | src/hooks/chats/github/use-github.ts:43 | the longest prefix without a `/`, which stops at a `/` or takes the whole text |
| GitHubUrl.StripGit | src/hooks/chats/github/use-github.ts:43 | the repository group is a prefix of the segment and is non-empty when the segment is |
| GitHubUrl.OwnerAndRest | src/hooks/chats/github/use-github.ts:43-49 | the owner group is non-empty, holds no `/`, and with a `/` and the rest gives back the text |
| GitHubUrl.FirstMatch | src/hooks/chats/github/use-github.ts:52-62 | a result is the answer of one of the patterns tried |
| GitHubUrl.FirstMatching | src/hooks/chats/github/use-github.ts:52-63 | the loop returns the first matching pattern's groups, trimmed, or none |
| GitHubUrl.ParseGitHubUrl | src/hooks/chats/github/use-github.ts:39-68 | the newer parser: four patterns tried in order on the trimmed URL |
| GitHubUrl.LegacyParseGitHubUrl | src/hooks/github/use-github.ts:34-58 | the older parser: three patterns tried in order on the URL as given |
| GitHubUrl.SimpleHttpsNeverDecides | src/hooks/chats/github/use-github.ts:43-45 | whatever the simple HTTPS pattern matches the full one matches first, so it never decides |
| GitHubUrl.ParseIgnoresSurroundingSpace | src/hooks/chats/github/use-github.ts:53 | surrounding white space makes no difference to the newer parser |
| GitHubUrl.ParseSkipsLeadingSpace | src/hooks/chats/github/use-github.ts:53 | the newer parser ignores a leading white-space character |
| GitHubUrl.LegacyRejectsLeadingSpace | src/hooks/github/use-github.ts:37-44 | the older parser accepts nothing that starts with white space |
| GitHubUrl.ParseExtendsLegacy | src/hooks/github/use-github.ts:36-52 | on a trimmed URL the newer parser gives the older one's answer wherever the older one accepts |
| GitHubUrl.NoColonIsShorthandOnly | src/hooks/chats/github/use-github.ts:41-50 | a text without `:` can only match the shorthand pattern |
| GitHubUrl.ShorthandMatches | src/hooks/chats/github/use-github.ts:49 | the shorthand pattern reads `owner/repo` back |
| GitHubUrl.ShorthandRoundTrip | src/hooks/chats/github/use-github.ts:39-62 | a plain `owner/repo` parses to that owner and repository with no branch |
| GitHubUrl.TreeUrlMatches | src/hooks/chats/github/use-github.ts:43 | the full HTTPS pattern reads `https://github.com/owner/repo/tree/branch` back |
| GitHubUrl.TreeUrlRoundTrip | src/hooks/chats/github/use-github.ts:39-62 | `https://github.com/owner/repo/tree/branch` parses to its three parts |
| GitHubUrl.GetRepoPath | src/hooks/chats/github/use-github.ts:71-73 | the clone directory starts with `/` and holds the owner, a `/` and the repository |
| GitHubUrl.RepoPathSplits | src/hooks/chats/github/use-github.ts:71-73 | the clone directory splits back into the root, the owner and the repository |
| GitHubUrl.TargetBranch | src/hooks/chats/github/use-github.ts:330 | the parsed branch when non-empty, else the fallback |
| GitHubUrl.TreeUrlChecksOutBranch | src/hooks/chats/github/use-github.ts:324-330 | a `/tree/<branch>` URL checks out its branch, whatever the fallback |
| GitHubUrl.ShorthandChecksOutFallback | src/hooks/chats/github/use-github.ts:324-330 | a plain `owner/repo` checks out the fallback branch |
| RepoScan.SplitCountsSeparators | src/hooks/chats/github/use-github.ts:271 | splitting at a one-character separator gives one piece more than there are separators |
| RepoScan.DepthCountsSlashes | src/hooks/chats/github/use-github.ts:271 | an item's depth is the number of `/` in its path |
| RepoScan.EnhanceItemsWithDepth | src/hooks/chats/github/use-github.ts:268-273 | every item in order, unchanged but for its depth, which is the number of `/` in its path |
| RepoScan.CountFiles | src/hooks/chats/github/use-github.ts:282-286 | no more files than items |
| RepoScan.CalculateStats | src/hooks/chats/github/use-github.ts:276-297 | files and directories split the listing, `maxDepth` bounds every depth and is 0 for an empty listing, and nothing is truncated |
| RepoScan.ReplaceFirst | src/hooks/chats/github/use-github.ts:445 | a text without the pattern is unchanged |
| RepoScan.ReplacePrefix | src/hooks/chats/github/use-github.ts:445 | a text that starts with the pattern loses exactly that prefix |
| RepoScan.HeadNamesMembers | src/hooks/chats/github/use-github.ts:443-445 | a name is listed exactly when the refs hold `refs/heads/<name>` |
| RepoScan.ListBranches | src/hooks/chats/github/use-github.ts:443-448 | never empty and sorted; `["main"]` when no head ref exists, otherwise a permutation of the head names |
| RepoScan.ListedBranchesAreHeads | src/hooks/chats/github/use-github.ts:443-448 | with a head ref, the branches listed are exactly the heads' names |
| RepoScan.KeptEntriesMembers | src/hooks/chats/github/use-github.ts:221-229 | the walk visits exactly the entries not skipped, and never a hidden one |
| ToolNames.MappedName | src/lib/tool-utils.ts:4-8 | a mapped label is never empty |
| ToolNames.TitleCase | src/lib/tool-utils.ts:42 | only the case of letters changes, every word starts with a non-lower-case character, and every other character is kept |
| ToolNames.SpaceCapitals | src/lib/tool-utils.ts:41 | every capital has a space in front of it, no underscore appears, and dropping each space in front of a capital (`Unspaced`) gives the input back, so its characters are kept in order |
| ToolNames.Capitalize | src/lib/tool-utils.ts:26-27 | the same letters up to case, the first not lower case and the rest kept as it is |
| ToolNames.HumanizeShape | src/lib/tool-utils.ts:39-43 | the fallback rendering holds no underscore and has no white space at either end |
| ToolNames.CleanToolName | src/lib/tool-utils.ts:10-44 | the name shown is never empty unless the fallback rendering of the name is |
| ToolNames.CleanEmptyName | src/lib/tool-utils.ts:14-17 | a missing or empty name reads "Tool Executing..." exactly when the call is known to be running, else "Unknown Tool" |
| ToolNames.CleanMappedNames | src/lib/tool-utils.ts:35-37 | every name of the table reads as its label |
| ToolNames.CleanMcpName | src/lib/tool-utils.ts:20-32 | `mcp__<server>__<part>__…__<part>` reads as the capitalised server, a colon and the title-cased words of the parts joined by `_` |
| ToolNames.McpNameSplits | src/lib/tool-utils.ts:21-24 | `mcp__<server>__<part>__…__<part>` splits at `__` into `mcp`, the server and each part |
| ToolNames.SplitJoinParts | src/lib/tool-utils.ts:21-24 | parts without `__`, none but the last ending in `_`, joined by `__` split back into themselves |
| ToolNames.CleanUnmappedName | src/lib/tool-utils.ts:39-43 | an unmapped name that is not an MCP name reads as its fallback rendering |
| ToolNames.CleanToolNameAsWritten | src/lib/tool-utils.ts:35-36 | the code as written returns an inherited member only for an inherited key |
| ToolNames.AsWrittenAgreesOutsideInheritedKeys | src/lib/tool-utils.ts:10-44 | apart from the inherited keys, the code as written agrees with the corrected model |
| ToolNames.ToStringToolName | src/lib/tool-utils.ts:35-36 | a tool named `toString` gets an inherited function from the code as written and its fallback rendering from the corrected model |
| ToolNames.FormatToolOutput | src/lib/tool-utils.ts:65-95 | text that is not JSON and not a fragment is shown as it is |
| ToolNames.FormatMissingOutput | src/lib/tool-utils.ts:66-69 | no output reads "Waiting for output..." exactly while streaming, and nothing otherwise |
| ToolNames.FormatFragment | src/lib/tool-utils.ts:74-79 | a half-received JSON fragment reads "Receiving data..." exactly while streaming, else "Invalid output" |
| ToolNames.StatusesAreDistinct | src/lib/tool-utils.ts:97-107 | the three states read differently, both in text and in colour |
| McpHelpers.FindFirst | src/hooks/chats/use-mcp-helpers.ts:4-19 | the result is the first matching template; none found means none matches |
| McpHelpers.FindByNameIgnoresCase | src/hooks/chats/use-mcp-helpers.ts:8-9 | names asked for that differ only in case find the same template |
| McpHelpers.FindByNameHyphenated | src/hooks/chats/use-mcp-helpers.ts:8-19 | a template whose lower-cased name or key is the lower-cased name asked for with every `_` turned into `-` is found |
| McpHelpers.UnderscoreNameNotFoundByHyphen | src/hooks/chats/use-mcp-helpers.ts:9-18 | only the name asked for is normalised: a template named `x_y` is found by `x_y` and not by `x-y` |
| McpHelpers.GetMcpLogoUrl | src/hooks/chats/use-mcp-helpers.ts:21-31 | a missing, empty or unknown key gives the default avatar; any other answer is the image of a template with that key |
| McpHelpers.ParseMcpToolName | src/hooks/chats/use-mcp-helpers.ts:39-59 | a result exactly for names starting with `mcp__` that split into at least three parts |
| McpHelpers.ParsedToolNameIsSuffix | src/hooks/chats/use-mcp-helpers.ts:50 | the tool name is everything after the server's `__`, kept exactly |
| McpHelpers.McpPrefixIsFirstPart | src/hooks/chats/use-mcp-helpers.ts:40-44 | a name starting with `mcp__` splits first into `mcp` |
| McpHelpers.ParsedDisplayName | src/hooks/chats/use-mcp-helpers.ts:49-58 | the display name is the matching template's name when it has one, else the lower-cased server |
| McpHelpers.GetMcpDisplayInfo | src/hooks/chats/use-mcp-helpers.ts:67-77 | an unknown key gives the key as name and the default avatar; the icon is never empty; a description only from a template |
| EnvVars.DisplayEnvVars | src/components/chat/panels/mcp/env-var-input.tsx:23-26 | the rows shown are the entries and exactly one trailing empty row |
| EnvVars.Assign | src/components/chat/panels/mcp/env-var-input.tsx:32 | a record assignment overwrites in place or appends one pair |
| EnvVars.AssignLookup | src/components/chat/panels/mcp/env-var-input.tsx:32 | after the assignment the key reads the new value and every other key its old one |
| EnvVars.AssignNew | src/components/chat/panels/mcp/env-var-input.tsx:32 | a new key goes at the end, in insertion order |
| EnvVars.AssignKeys | src/components/chat/panels/mcp/env-var-input.tsx:32 | assignment adds its key and takes none away |
| EnvVars.AssignWellFormed | src/components/chat/panels/mcp/env-var-input.tsx:31-33 | with a trimmed non-empty key the record keeps unique, trimmed, non-empty keys |
| EnvVars.ConvertedLookup | src/components/chat/panels/mcp/env-var-input.tsx:28-36 | each trimmed non-blank key reads the value of its last row, and nothing else is recorded |
| EnvVars.ConvertedWellFormed | src/components/chat/panels/mcp/env-var-input.tsx:28-36 | the rebuilt record has unique, trimmed, non-empty keys |
| EnvVars.ConvertedOfWellFormed | src/components/chat/panels/mcp/env-var-input.tsx:28-36 | rebuilding a well-formed record gives it back unchanged |
| EnvVars.ConvertToRecord | src/components/chat/panels/mcp/env-var-input.tsx:28-36 | the loop builds the record of the rows |
| EnvVars.AddEnvVarKeepsRecord | src/components/chat/panels/mcp/env-var-input.tsx:38-41 | adding an empty row leaves a well-formed record unchanged |
| EnvVars.WithoutIndex | src/components/chat/panels/mcp/env-var-input.tsx:45 | one row fewer for an index in range; unchanged otherwise |
| EnvVars.RemoveEnvVarDropsOnlyThatRow | src/components/chat/panels/mcp/env-var-input.tsx:43-47 | removing from a well-formed record drops only the row at the index, keeping the others in order |
| EnvVars.UpdateValueInPlace | src/components/chat/panels/mcp/env-var-input.tsx:49-66 | editing the value of an existing row changes that value only |
| EnvVars.UpdateTrailingKeyAdds | src/components/chat/panels/mcp/env-var-input.tsx:58-65 | typing a new trimmed key into the trailing row adds it with an empty value |
| EnvVars.UpTo | src/components/chat/panels/mcp/env-var-input.tsx:127 | the longest prefix without the given character (the closing `"`), stopping at the first one |
| EnvVars.SpacePrefix | src/components/chat/panels/mcp/env-var-input.tsx:127 | the longest white-space prefix |
| EnvVars.TokenPrefix | src/components/chat/panels/mcp/env-var-input.tsx:137 | the longest prefix without `,` or white space |
| EnvVars.ParseLines | src/components/chat/panels/mcp/env-var-input.tsx:110-145 | at most one pair per line |
| EnvVars.ParseEnvVars | src/components/chat/panels/mcp/env-var-input.tsx:104-148 | the loop returns the pairs of the lines, in order |
| EnvVars.ParsedPairsAreTrimmed | src/components/chat/panels/mcp/env-var-input.tsx:117-144 | every parsed key and value is trimmed |
| EnvVars.KeyValueRoundTrip | src/components/chat/panels/mcp/env-var-input.tsx:117-124 | `KEY=VALUE` reads back as that pair, for a trimmed key without `=` and a trimmed value |
| EnvVars.SkippedLines | src/components/chat/panels/mcp/env-var-input.tsx:111-114 | blank lines and comments give no pair |
| EnvVars.QuotedValueRoundTrip | src/components/chat/panels/mcp/env-var-input.tsx:126-134 | a line `"KEY": "VALUE"`, with or without a trailing comma, reads back as the trimmed pair, for a non-empty key without `"` and a value without `"`, neither holding `=` (a `=` sends the line to the `KEY=VALUE` form first) |
| EnvVars.BareValueRoundTrip | src/components/chat/panels/mcp/env-var-input.tsx:136-144 | a line `"KEY": token`, with or without a trailing comma, reads back as the trimmed key and the token, for a token of neither `,` nor white space that does not open with `"` and holds no `=` |
| EnvVars.QuotedKeyOf | src/components/chat/panels/mcp/env-var-input.tsx:127 | `"KEY": ` is read back as the key and what follows, and fails for an empty key |
| EnvVars.ParseLinesAppend | src/components/chat/panels/mcp/env-var-input.tsx:110-145 | several lines give the pairs of each line, in order |
| EnvVars.HandlePaste | src/components/chat/panels/mcp/env-var-input.tsx:68-102 | the paste is taken over exactly when it goes into an empty row's key field and its non-blank text parses into more than one pair; the result is well formed |
| EnvVars.PasteIntoTrailingRow | src/components/chat/panels/mcp/env-var-input.tsx:94-99 | a paste taken over in the trailing row adds the pasted pairs after the record's rows |
| McpForm.ValidateMcp | src/hooks/chats/use-mcp.ts:15-43 | no error exactly when the form is acceptable; a blank name always gives "MCP name is required" |
| McpForm.ValidationIgnoresOtherKinds | src/hooks/use-mcp.ts:11-39 | the check a form of one kind fails never depends on the fields of another kind |
| McpForm.Normalized | src/hooks/chats/use-mcp.ts:98-100 | nothing exactly for blank text, otherwise the trimmed text |
| McpForm.CreateParamsOf | src/hooks/chats/use-mcp.ts:94-109 | text fields trimmed or dropped, an empty environment dropped, the port kept only for docker, enabled and in the creating state |
| McpForm.ValidFormParamsAreComplete | src/hooks/chats/use-mcp.ts:91-109 | the parameters of a valid form carry, trimmed, the field its kind runs from |
| McpForm.McpHandlers.constructor | src/hooks/chats/use-mcp.ts:64-67 | no request sent and no notice shown |
| McpForm.McpHandlers.HandleCreate | src/hooks/chats/use-mcp.ts:87-120 | an invalid form shows its error and sends nothing; a valid one sends its parameters, then closes the dialog with a success notice, or reports failure and keeps it open |
| McpForm.McpHandlers.HandleToggleMcp | src/hooks/chats/use-mcp.ts:69-76 | asks for the opposite of the current flag, nothing else |
| McpForm.McpHandlers.HandleDeleteMcp | src/hooks/chats/use-mcp.ts:78-85 | asks for the removal, nothing else |
| McpForm.McpHandlers.ToggleMcp | src/hooks/use-mcp.ts:102-110 | asks for the opposite of the flag and shows what happened |
| McpForm.McpHandlers.HandleDelete | src/hooks/use-mcp.ts:92-100 | asks for the removal and shows what happened |
| McpForm.McpHandlers.RestartMcp | src/hooks/use-mcp.ts:112-120 | asks for the restart and shows what happened |
| McpForm.ToggleNotice | src/hooks/use-mcp.ts:105-108 | a success notice only on success, and "MCP stopped" exactly when the server was running |
| McpForm.ToggleTwiceRestores | src/hooks/chats/use-mcp.ts:69-72 | two toggles ask for the opposite state, then the original one |
| DocTags.GetTagInfo | src/lib/helper.tsx:19-63 | a known tag keeps its name and any other tag is shown as a plain file, so the tag shown is always known |
| DocTags.GetTagInfoIdempotent | src/lib/helper.tsx:19-63 | looking the shown tag up again changes nothing |
| DocTags.KnownTagsAreDistinct | src/lib/helper.tsx:19-63 | different known tags are shown differently |
| DocTags.Modality | src/lib/helper.tsx:75-89 | the modality is one of the six and agrees with the MIME prefix it came from |
| DocTags.ModalityOfMajorType | src/lib/helper.tsx:77-84 | every major type the classification knows gives its own modality |
| DocTags.UnknownTypeIsFile | src/lib/helper.tsx:75-89 | a type the classification does not know is a plain file |
| DocTags.GetDocTagInfo | src/lib/helper.tsx:66-97 | processing into an unsupported modality shows "processing", an error shows "error", anything else its modality |
| DocTags.UnknownDocumentIsFile | src/lib/helper.tsx:66-97 | a document of unknown type that is neither processing nor failed is a plain file |
| Accordion.InitialValue | src/components/ui/accordion.tsx:49-53 | the controlled value, else the default, else nothing open: a list in multiple mode and the empty text in single mode |
| Accordion.Expanded | src/components/ui/accordion.tsx:56-58 | the items of a list, or the single item unless it is empty |
| Accordion.Toggled | src/components/ui/accordion.tsx:60-76 | the new value is a list exactly in multiple mode |
| Accordion.MultipleToggleFlips | src/components/ui/accordion.tsx:63-69 | in multiple mode a toggle flips the item's membership and keeps every other item's |
| Accordion.MultipleToggleTwice | src/components/ui/accordion.tsx:63-69 | two toggles restore the expanded set, and the list itself when the item was closed |
| Accordion.SingleToggle | src/components/ui/accordion.tsx:71-75 | toggling the open item closes it when collapsible and keeps it otherwise; any other item opens alone |
| Accordion.AccordionState.constructor | src/components/ui/accordion.tsx:49-53 | the internal state starts at the initial value and nothing is reported |
| Accordion.AccordionState.SetValueProp | src/components/ui/accordion.tsx:42 | the parent's value prop changes; internal state and reports do not |
| Accordion.AccordionState.ToggleItem | src/components/ui/accordion.tsx:60-82 | the new value is always reported, and written to the internal state only when uncontrolled |
| Accordion.ToggleTwiceUncontrolled | src/components/ui/accordion.tsx:60-82 | an uncontrolled multiple-mode accordion toggled twice on a closed item is back to its list |
| ModelPicker.ToggleVisibility | src/components/chat/input/toolbar/model-popover.tsx:312-330 | the name's hidden state flips, every other name's stays, and the order is kept |
| ModelPicker.ToggleVisibilityTwice | src/components/chat/input/toolbar/model-popover.tsx:312-330 | two toggles of one name restore every name's hidden state |
| ModelPicker.IndexOfName | src/components/chat/input/toolbar/model-popover.tsx:203-208 | the first index with the name, or -1 exactly when no model has it |
| ModelPicker.DropIndex | src/components/chat/input/toolbar/model-popover.tsx:206-215 | the index of the model dropped on, or the last index when none is listed under the cursor (`arrayMove` with -1) |
| ModelPicker.DragEnd | src/components/chat/input/toolbar/model-popover.tsx:199-218 | nothing exactly when the drag ends over its own item; otherwise the same names with the dragged one at the drop index and the others in their order |
| ModelPicker.DragEndOverItem | src/components/chat/input/toolbar/model-popover.tsx:199-218 | dropping on another listed model puts the dragged one at that model's old index, and taking it out again leaves the others in their old order |
| ModelPicker.DragEndOverNothing | src/components/chat/input/toolbar/model-popover.tsx:206-215 | dropping where no listed model is moves the dragged model to the end, the others in order |
| ModelPicker.DragBackRestores | src/components/chat/input/toolbar/model-popover.tsx:199-218 | with distinct names, dragging the model back over the one now at its old index restores the order |
| ModelPicker.FilteredModels | src/components/chat/input/toolbar/model-popover.tsx:346-350 | exactly the visible models whose name or label contains the search, case-insensitively |
| ModelPicker.FilteredModelsAppend | src/components/chat/input/toolbar/model-popover.tsx:346-350 | the filter keeps the order: the matches of two joined lists are the first list's matches followed by the second's |
| ModelPicker.FilteredModelsSingle | src/components/chat/input/toolbar/model-popover.tsx:346-350 | a single model is kept exactly when it matches |
| ModelPicker.EmptyQueryShowsAll | src/components/chat/input/toolbar/model-popover.tsx:346-350 | an empty search shows every visible model |
| ModelPicker.NextIndex | src/components/chat/input/toolbar/model-popover.tsx:384-389 | ArrowDown stays in range, stepping forward and wrapping from the last to 0 |
| ModelPicker.PrevIndex | src/components/chat/input/toolbar/model-popover.tsx:390-395 | ArrowUp stays in range, stepping back and wrapping from 0 or -1 to the last |
| ModelPicker.ArrowKeysAreInverse | src/components/chat/input/toolbar/model-popover.tsx:384-395 | over a non-empty list ArrowUp undoes ArrowDown and the other way round |
| ModelPicker.ArrowKeysFromNothing | src/components/chat/input/toolbar/model-popover.tsx:384-395 | from nothing highlighted, ArrowDown goes to the first model and ArrowUp to the last |
| ModelPicker.ModelPopover.constructor | src/components/chat/input/toolbar/model-popover.tsx:346-350 | closed, empty search, nothing highlighted, nothing chosen |
| ModelPicker.ModelPopover.HandleModelSelect | src/components/chat/input/toolbar/model-popover.tsx:332-343 | the model is chosen, the popover closes and the highlight is cleared |
| ModelPicker.ModelPopover.SelectModelByIndex | src/components/chat/input/toolbar/model-popover.tsx:352-358 | an index past the filtered list does nothing; any other chooses that filtered model |
| ModelPicker.ModelPopover.SetPopoverOpen | src/components/chat/input/toolbar/model-popover.tsx:427-432 | opening a closed popover clears the highlight |
| ModelPicker.ModelPopover.SetSearch | src/components/chat/input/toolbar/model-popover.tsx:427-432 | while open, a changed search clears the highlight |
| ModelPicker.ModelPopover.HandleKeyDown | src/components/chat/input/toolbar/model-popover.tsx:362-408 | Ctrl+M flips the popover; Alt+digit d of at least 1 selects index d-1; the arrows, Enter and Escape act only while open, Enter only in range, Escape closing and clearing the highlight |
| ModelPicker.ModelPopover.HandleToggleVisibility | src/components/chat/input/toolbar/model-popover.tsx:312-330 | the stored preferences get the name's visibility flipped and nothing else changes |
| ModelPicker.ModelPopover.HandleDragEnd | src/components/chat/input/toolbar/model-popover.tsx:199-218 | a drag onto itself changes nothing; otherwise the stored order becomes the moved names |
| ConvexUsage.OccurrencesFit | scripts/convex/spec.js:35-43 | the matches do not overlap, so together they fit in the text |
| ConvexUsage.NoOccurrencesIffAbsent | scripts/convex/spec.js:35-43 | the count is 0 exactly when the text does not contain the substring |
| ConvexUsage.OccurrencesOfRepeat | scripts/convex/spec.js:35-43 | `k` copies of the substring side by side hold exactly `k` matches |
| ConvexUsage.OccurrencesShift | scripts/convex/spec.js:38 | counting from inside a suffix does not see the text before it |
| ConvexUsage.CountOccurrences | scripts/convex/spec.js:35-43 | the loop counts the non-overlapping matches from left to right, and their total length fits in the text |
| ConvexUsage.ExtName | scripts/convex/spec.js:24 | the extension is empty or a dotted suffix shorter than the name |
| ConvexUsage.LastDot | scripts/convex/spec.js:24 | the last `.` before the end, or none when there is none |
| ConvexUsage.KeptFiles | scripts/convex/spec.js:14-26 | a file with a name before a source extension is kept; a name that is only the extension is not |
| ConvexUsage.ParseArgs | scripts/convex/spec.js:47-64 | the flag loop gives the directories the flags choose, starting from `src` and `convex`, or the first unknown argument |
| ConvexUsage.FrontendFlagForms | scripts/convex/spec.js:52-55 | the spaced and the `=` forms of `--frontend` choose the same directory |
| ConvexUsage.ConvexFlagForms | scripts/convex/spec.js:56-59 | the spaced and the `=` forms of `--convex` choose the same directory |
| ConvexUsage.UnknownArgumentStops | scripts/convex/spec.js:60-63 | any other argument stops the script with an error |
| ConvexUsage.StripExt | scripts/convex/spec.js:95 | a prefix of the segment, shorter only by one source extension |
| ConvexUsage.PublicKey | scripts/convex/spec.js:86-98 | only public functions with an identifier get a key, which is `api.` and the short name |
| ConvexUsage.PublicKeyOf | scripts/convex/spec.js:88-97 | for `file:fn` the key is `api.`, then the path's segments with extensions stripped, then the function, joined by dots |
| ConvexUsage.OnlyPublicFunctions | scripts/convex/spec.js:87-91 | internal functions, and identifiers without both a file and a name, are never considered |
| ConvexUsage.PublicKeys | scripts/convex/spec.js:85-99 | at most one key per function listed |
| ConvexUsage.CollectPublicFunctions | scripts/convex/spec.js:85-99 | the loop keeps the keys of the public functions, in the order listed |
| ConvexUsage.UnusedRows | scripts/convex/spec.js:110-121 | every row is the row of a listed function with no frontend use, its backend count and that count positive; there are no more rows than functions |
| ConvexUsage.UnusedRowsMembers | scripts/convex/spec.js:110-121 | a function that no frontend file names and some backend file does is reported, with its backend count |
| ConvexUsage.UnusedRowsExactly | scripts/convex/spec.js:110-121 | for keys of the form `api.<short name>`, a function's row is reported exactly when no frontend file names it and some backend file does |
| ConvexUsage.PublicKeysAreApiKeys | scripts/convex/spec.js:96-98 | every function the script keeps has the key `api.` followed by its short name |
| ConvexUsage.KeyLeTotalPreorder | scripts/convex/spec.js:125 | the key order is total and transitive |
| ConvexUsage.Report | scripts/convex/spec.js:110-128 | the report is the unused rows, sorted by key |
| ConvexUsage.ShortNamesAreNonEmpty | scripts/convex/spec.js:97 | every short name is non-empty, so the substring count always ends |
| ConvexUsage.BuildReport | scripts/convex/spec.js:110-121 | the loop counts each function's matches in both trees and keeps the unused ones |
| ConvexUsage.SumCounts | scripts/convex/spec.js:113-116 | the inner loop sums the counts over the texts |
| DuplicateQueries.WalkRulesExtendUsageRules | scripts/convex/find-duplicate-queries.ts:26-37 | the walk skips the usage script's directories and `.next` as well, and scans the same files |
| DuplicateQueries.WordEnd | scripts/convex/find-duplicate-queries.ts:58 | the end of the run of word characters |
| DuplicateQueries.ChainEnd | scripts/convex/find-duplicate-queries.ts:58 | the greedy chain is made of chain characters and cannot be extended |
| DuplicateQueries.MatchAt | scripts/convex/find-duplicate-queries.ts:58 | a match is `api.` followed by a dotted identifier chain |
| DuplicateQueries.QueriesFrom | scripts/convex/find-duplicate-queries.ts:60-64 | each reference found is `api.` followed by a dotted identifier chain |
| DuplicateQueries.FindQueries | scripts/convex/find-duplicate-queries.ts:48-71 | each reference found is `api.` followed by a dotted identifier chain |
| DuplicateQueries.SingleReference | scripts/convex/find-duplicate-queries.ts:57-64 | a text that is one reference finds exactly that reference |
| DuplicateQueries.ChainEndConsumesChain | scripts/convex/find-duplicate-queries.ts:58 | from inside a chain that runs to the end, the greedy match runs to the end |
| DuplicateQueries.NoMatchInsideWord | scripts/convex/find-duplicate-queries.ts:58 | a reference glued to a word before it is not a match |
| DuplicateQueries.AddFoundLookup | scripts/convex/find-duplicate-queries.ts:79-84 | a step counts the query once more and adds the file, and leaves every other query alone |
| DuplicateQueries.AggregatedDescribes | scripts/convex/find-duplicate-queries.ts:76-85 | each entry counts the references to its query and lists, once each, the files they are in |
| DuplicateQueries.QueryCountPositive | scripts/convex/find-duplicate-queries.ts:78-85 | a query found at least once has a positive count |
| DuplicateQueries.AggregatedDistinct | scripts/convex/find-duplicate-queries.ts:76-85 | the map holds each query once |
| DuplicateQueries.AddFoundFrom | scripts/convex/find-duplicate-queries.ts:79-84 | a step adds or changes only the found query's usage |
| DuplicateQueries.AggregatedFromLookup | scripts/convex/find-duplicate-queries.ts:87-92 | every listed usage comes from the map |
| DuplicateQueries.SortFiles | scripts/convex/find-duplicate-queries.ts:91 | the file list is sorted and holds the same files |
| DuplicateQueries.MoreUsedTotalPreorder | scripts/convex/find-duplicate-queries.ts:94 | count-descending is total and transitive |
| DuplicateQueries.Duplicates | scripts/convex/find-duplicate-queries.ts:87-93 | only queries found more than once, each with sorted files |
| DuplicateQueries.AggregateQueries | scripts/convex/find-duplicate-queries.ts:87-94 | the duplicates, most used first |
| DuplicateQueries.AggregateQueriesSpec | scripts/convex/find-duplicate-queries.ts:73-95 | a reported query was found more than once, its count is how often, and its files are those it was found in, sorted, each once, no more than the count |
| DuplicateQueries.DuplicatesAreReported | scripts/convex/find-duplicate-queries.ts:73-95 | every query found more than once is reported |
| DuplicateQueries.SortedNoDuplicates | scripts/convex/find-duplicate-queries.ts:91 | sorting a list without duplicates keeps it without duplicates |
| DuplicateQueries.Aggregate | scripts/convex/find-duplicate-queries.ts:73-95 | the loop builds the map, which is then filtered and sorted into the report |
| GitHubHooks.AtLeastZero | src/hooks/use-github.ts:307 | the floor at zero never lowers a value and keeps a non-negative one |
| GitHubHooks.SelectedTokensWithout | src/hooks/use-github.ts:268-279 | deselecting paths never raises the recomputed total |
| GitHubHooks.SelectedTokensOfNonFiles | src/hooks/use-github.ts:270-275 | folders and paths missing from the tree add nothing to the recomputed total |
| GitHubHooks.CalculatedTokens | src/hooks/use-github.ts:269-275 | the loop sums the tokens of the selected paths that name a file of the tree |
| GitHubHooks.RecomputeTotalTokens | src/hooks/use-github.ts:268-279 | only the total changes, to the recomputed one |
| GitHubHooks.HandleToggleSelection | src/hooks/use-github.ts:297-327 | the outcome is "not found" for a missing path, "deselected" for a selected one, "blocked" when positive tokens would exceed the limit, else "selected"; the selection set is left as it was, and only the total changes: lowered and floored at zero on deselecting, raised on selecting; the total stays within the limit |
| GitHubHooks.SelectedFilePaths | src/hooks/use-github.ts:440-443 | at most one path per selected path |
| GitHubHooks.GreedyPick | src/hooks/use-github.ts:462-478 | the running total never drops, stays within the limit when it starts there, and at most every file is picked |
| GitHubHooks.Taken | src/hooks/use-github.ts:465-478 | the pass stops within the list |
| GitHubHooks.GreedyIsPrefix | src/hooks/use-github.ts:465-478 | the pass takes a prefix of the files in order and adds their tokens; when it stops early the next file's tokens would pass the limit |
| GitHubHooks.GreedyTakesFilesWithoutTokens | src/hooks/use-github.ts:474-477 | every file before the stop is picked, those without tokens included |
| GitHubHooks.SelectGreedily | src/hooks/use-github.ts:462-478 | the loop with its `break` gives the greedy pick |
| GitHubHooks.HandleSelectAllFiles | src/hooks/use-github.ts:438-491 | when every shown file is selected the selection empties and the total resets; otherwise the greedy pick replaces both; the total ends within the limit |
| GitHubHooks.AtRoot | src/hooks/use-github.ts:218-222 | every root item in order at depth 0 with its children not loaded |
| GitHubHooks.HandleLoadRepository | src/hooks/use-github.ts:188-250 | an empty URL, an unparsable URL or a blank branch is refused, changing nothing; otherwise the selection empties and the root listing, or nothing on failure, is stored, with the success flag saying which |
| GitHubHooks.StartLoad | src/hooks/use-github.ts:205-209 | before the fetch the store is loading, with nothing listed or selected, no success, and the total reset when asked |
| GitHubHooks.FinishLoad | src/hooks/use-github.ts:217-248 | after the fetch the store holds the root listing at depth 0, or nothing on failure, with the success flag saying which, and loading is over |
| GitHubHooks.HandleOpenChange | src/components/chat/input/github/github-dialog.tsx:99-110 | closing the dialog resets the store; opening changes nothing |
| GitHubHooks.HandleContinue | src/components/chat/input/github/github-dialog.tsx:396-400 | with nothing selected an error and no change; once stored, the store is reset |
| GitHubHooks.DialogToggleKeepsBudget | src/components/chat/input/github/github-dialog.tsx:257-319 | a total within the limit stays there whatever the toggle does |
| GitHubHooks.DialogToggleNotFound | src/components/chat/input/github/github-dialog.tsx:259-260 | a path missing from the tree, and only such a path, changes nothing |
| GitHubHooks.DialogToggleRefused | src/components/chat/input/github/github-dialog.tsx:288-304 | a blocked or failed selection leaves the selection and the total alone |
| GitHubHooks.DialogToggleDeselects | src/components/chat/input/github/github-dialog.tsx:264-271 | a selected path of the tree is deselected and leaves the selection |
| GitHubHooks.DialogToggleSelects | src/components/chat/input/github/github-dialog.tsx:273-317 | after a selection the path is selected and every earlier selection is kept in order |
| GitHubHooks.DialogToggleSelection | src/components/chat/input/github/github-dialog.tsx:257-319 | the store's actions produce the toggle's new state |
| GitHubHooks.SelectWithinBudget | src/components/chat/input/github/github-dialog.tsx:287-306 | a file whose tokens would take the total past the limit is refused, changing nothing; otherwise it is selected with its subtree and its tokens join the total |

## Left out

- The Convex database is modelled as lists of rows in insertion order. An index read in descending order ("the latest row") is the last matching row; index ordering beyond that is not modelled.
- `buildMessageLookups` is not part of this model. `ChatMutations` takes the parent-to-children map it produces as a parameter.
- JSON parsing and `JSON.stringify` are not modelled. Parsed message contents, stored GitHub documents and tool outputs enter as already parsed values. The branch of `formatToolOutput` where `JSON.stringify` throws is not modelled.
- Model calls, prompts and tool execution in the planner graph are functions passed as parameters (`PlannerGraph.PlannerAgent` takes the agent run as `run`).
- Fetches, `mime.getType`, `parseInt`, `readdir`/`readFile`, the git and file-system calls of the repository hooks, and `parseGitHubUrl` of `@/lib/github` are not modelled. Their results are parameters.
- The recursion of `walkDirectory`, `collectFiles` and `findAllFiles` over the file system is not modelled. Only the rule applied to each directory entry (skip or keep) is.
- `selectItemWithTokens` and `deselectItemWithTokens` are not defined in the GitHub store that is modelled. `GitHubHooks.HandleToggleSelection` takes their results as parameters.
- GitHubHooks.HandleToggleSelection: does not model the change to the selection set or the throw. `deselectItemWithTokens` and `selectItemWithTokens` are read from the store but the store (src/stores/githubStore.ts) defines neither, so the source calls `undefined` and throws before `setTotalTokens`. The model lets the handler run to the end, leaves `selectedItems` unchanged, and updates only the total.
- EnvVars.Converted: a row whose trimmed key is `__proto__` is recorded like any other key. In the source, `result["__proto__"] = value` on a plain object with a string value is ignored, so that row is lost. `EnvVars.ConvertedLookup` and `EnvVars.ConvertedWellFormed` inherit this.
- StreamGroups.ChatStream.ChangeChat: only a change of chat is modelled. The polling effect of `useStream` also re-runs when the `stream` document changes (src/hooks/use-stream.ts:75), and each re-run clears the chunks and the last-chunk time (src/hooks/use-stream.ts:18-24).
- MessageGroups: `groupMessages` annotates tool messages in place, so the caller's message objects change too. The model returns annotated copies and does not model that aliasing.
- `storeGitHubAsDocument` and `useStoreGitHubAsDocument` are not modelled: they upload a file and stamp it with the current date.
- `calculateTokensIncrementally` is not modelled: it is an asynchronous fetch loop.
- Floating point is not modelled: `getTokenUsagePercentage`, `tokenUsagePercentageAtom` and the `toFixed` branches of `formatTokenCount`.
- TokenCounter.FormatTokenCount: only the plain-decimal rendering below 1000 is stated. Larger counts keep only their unit suffix, because the scaled number is floating point.
- GhText.GetGitHubDocumentSummary: the timestamp's `toLocaleString` rendering is not modelled. The summary keeps the number.
- Asynchronous behaviour is not modelled: promises, toasts, console output, polling loops, timers, debouncing, aborts and cancellation. Each handler is modelled as one step that runs to completion.
- Random and time-based ids (`Date.now`, `Math.random`) are parameters.
- `localeCompare` is modelled by `LexLe`, the code-unit order of strings. The locale collation and the UTF-16 versus code-point difference are not modelled.
- Case conversion (`toLowerCase`, `toUpperCase`) is modelled for ASCII letters only.
- Object key order: `Object.entries` lists integer-like keys first in JavaScript. The model keeps insertion order for every key.
- Sorting.SortBy: the model sorts by insertion, which is stable. Stability of `Array.prototype.sort` is not claimed for the source, and no lemma depends on it.
- A missing `children` list is modelled as an empty list.
- ChatTree.Walk: the reference walk stops after a given number of rounds as well as when the siblings run out. `ChatTree.WalkThread` shows that as many rounds as there are messages always suffice, so the thread of the source is `Walk` with that bound.
- A JavaScript `Set` of strings is modelled as a list without duplicates in insertion order (`PathSets`).
- ConvexUsage.CountOccurrences: requires a non-empty search string. The source loops forever on an empty one.
- McpForm: the schema's `"sse"` transport is not a form type. Only the form's `"http"` is modelled. A docker port read as `NaN` is modelled as a missing port.
- The `main` functions of `scripts/convex/spec.js` and `scripts/convex/find-duplicate-queries.ts` are modelled up to the data they print; the printing and the exit status are not.
- CheckpointStore: blobs and pending writes are inserted under the row's own namespace but looked up under the call's namespace. The lemmas assume the two agree, as they do for the only caller, `convex/checkpointer/checkpointer.ts`.
- StreamGroups.OneAIGroupPerRun: this is the only claim about AI-group adjacency. "No two AI groups are adjacent" does not hold (`StreamGroups.AdjacentAIGroups`).
- The React effects that scroll the model list and hold element refs are not modelled, and neither is the `use-models` hook.
- The Python services under `services/` are not modelled: they only forward to external libraries.
- Network clients, OAuth, authentication, the remaining Convex queries and mutations, and rendering are outside this model.

## Findings

| source | as written | input that shows it | evidently intended | confidence | as-written member | corrected member |
|---|---|---|---|---|---|---|
| src/lib/tool-utils.ts:35-36 | the test `rawName in TOOL_NAME_MAPPINGS` also accepts keys inherited from `Object.prototype`, and then returns that inherited member | a tool named `toString` | only the table's own keys are mapped; any other name gets the fallback rendering | not executed | ToolNames.CleanToolNameAsWritten | ToolNames.CleanToolName |
