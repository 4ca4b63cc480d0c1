// The conversation grouping of src/components/chat/messages/messages.tsx:
// parsed messages are cut into groups, each opened by a human message (the
// first may open with AI or tool messages), other kinds of message are not
// shown; a group's AI text is what its copy action joins together.

module MessageGroups {
  import opened Strings
  import opened Seqs
  import ChatTree

  /** One element of an array content (`{ type, text }`). */
  datatype ContentItem = ContentItem(itemType: string, text: string)

  /** A message's `content`: a string, an array of items, or anything else, shown through `String(...)`. */
  datatype Content = TextContent(s: string) | ItemsContent(items: seq<ContentItem>) | OtherContent(shown: string)

  /** A parsed message: which of `HumanMessage`, `AIMessage`, `ToolMessage` it is, and its content. */
  datatype BaseMsg = BaseMsg(kind: ChatTree.Kind, content: Content)

  /** Human, AI and tool messages are shown; the loop skips every other kind. */
  predicate Shown(m: BaseMsg) {
    m.kind == ChatTree.Human || m.kind == ChatTree.AI || m.kind == ChatTree.Tool
  }

  predicate IsAI(m: BaseMsg) {
    m.kind == ChatTree.AI
  }

  /** A well-formed grouping: no group is empty, a human message only ever opens a group, and every group after the first is opened by one. */
  ghost predicate WellGrouped(groups: seq<seq<BaseMsg>>) {
    && (forall i :: 0 <= i < |groups| ==> groups[i] != [])
    && (forall i :: 0 < i < |groups| ==> groups[i][0].kind == ChatTree.Human)
    && (forall i, k :: 0 <= i < |groups| && 0 < k < |groups[i]| ==> groups[i][k].kind != ChatTree.Human)
  }

  /** The loop state of `groupMessages` after the first `i` messages: closed groups and the open one. */
  ghost predicate GroupingInv(messages: seq<BaseMsg>, i: nat, groups: seq<seq<BaseMsg>>, current: seq<BaseMsg>)
    requires i <= |messages|
  {
    && Concat(groups) + current == Filter(messages[..i], Shown)
    && WellGrouped(groups)
    && (groups != [] ==> current != [] && current[0].kind == ChatTree.Human)
    && (forall k :: 0 < k < |current| ==> current[k].kind != ChatTree.Human)
  }

  /** Closing a non-empty open group whose later messages are not human keeps the grouping well-formed. */
  lemma CloseGroup(groups: seq<seq<BaseMsg>>, current: seq<BaseMsg>)
    requires WellGrouped(groups) && current != []
    requires groups != [] ==> current[0].kind == ChatTree.Human
    requires forall k :: 0 < k < |current| ==> current[k].kind != ChatTree.Human
    ensures WellGrouped(groups + [current])
    ensures Concat(groups + [current]) == Concat(groups) + current
  {
    ConcatAppend(groups, current);
    var gs := groups + [current];
    assert forall j :: 0 <= j < |groups| ==> gs[j] == groups[j];
  }

  lemma GroupingStep(messages: seq<BaseMsg>, i: nat, groups: seq<seq<BaseMsg>>, current: seq<BaseMsg>,
                     groups': seq<seq<BaseMsg>>, current': seq<BaseMsg>)
    requires i < |messages| && GroupingInv(messages, i, groups, current)
    requires var m := messages[i];
      if m.kind == ChatTree.Human then
        current' == [m] && groups' == (if |current| > 0 then groups + [current] else groups)
      else if m.kind == ChatTree.AI || m.kind == ChatTree.Tool then
        current' == current + [m] && groups' == groups
      else
        current' == current && groups' == groups
    ensures GroupingInv(messages, i + 1, groups', current')
  {
    var m := messages[i];
    assert messages[..i + 1] == messages[..i] + [m];
    FilterAppend(messages[..i], m, Shown);
    if m.kind == ChatTree.Human && |current| > 0 {
      CloseGroup(groups, current);
    }
  }

  /**
   * `groupMessages`: a human message closes the open group (when it is not
   * empty) and opens a new one; AI and tool messages join the open group;
   * other messages are dropped. Read back in order, the groups are exactly
   * the shown messages.
   */
  method GroupConversation(messages: seq<BaseMsg>) returns (groups: seq<seq<BaseMsg>>)
    ensures Concat(groups) == Filter(messages, Shown)
    ensures WellGrouped(groups)
  {
    groups := [];
    var current: seq<BaseMsg> := [];
    for i := 0 to |messages|
      invariant GroupingInv(messages, i, groups, current)
    {
      var message := messages[i];
      ghost var groups0, current0 := groups, current;
      if message.kind == ChatTree.Human {
        if |current| > 0 {
          groups := groups + [current];
          current := [];
        }
        current := [message];
      } else if message.kind == ChatTree.AI || message.kind == ChatTree.Tool {
        current := current + [message];
      }
      GroupingStep(messages, i, groups0, current0, groups, current);
    }
    assert messages[..|messages|] == messages;
    if |current| > 0 {
      CloseGroup(groups, current);
      groups := groups + [current];
    } else {
      assert Concat(groups) + current == Concat(groups);
    }
  }

  /** `item.type === "text" ? item.text : ""`, joined with nothing in between. */
  function ItemsText(items: seq<ContentItem>): (r: string)
  {
    if items == [] then ""
    else
      var last := items[|items| - 1];
      ItemsText(items[..|items| - 1]) + (if last.itemType == "text" then last.text else "")
  }

  /** The text of a message's content, as the copy action reads it. */
  function ContentText(c: Content): string {
    match c
    case TextContent(s) => s
    case ItemsContent(items) => ItemsText(items)
    case OtherContent(shown) => shown
  }

  /** The text of each message, in order. */
  function Texts(ms: seq<BaseMsg>): seq<string>
  {
    seq(|ms|, i requires 0 <= i < |ms| => ContentText(ms[i].content))
  }

  /** `getAllAIContent`: the texts of the group's AI messages, in order, separated by a blank line. */
  function AllAIContent(group: seq<BaseMsg>): string {
    Join(Texts(Filter(group, IsAI)), "\n\n")
  }

  /** The text of a concatenation of items is the texts of the two parts, one after the other. */
  lemma {:induction false} ItemsTextConcat(a: seq<ContentItem>, b: seq<ContentItem>)
    ensures ItemsText(a + b) == ItemsText(a) + ItemsText(b)
    decreases |b|
  {
    if b == [] {
      assert a + b == a;
    } else {
      var init := b[..|b| - 1];
      var last := b[|b| - 1];
      assert (a + b)[..|a + b| - 1] == a + init;
      ItemsTextConcat(a, init);
    }
  }

  /** Content with no text item copies as the empty string. */
  lemma {:induction false} ItemsTextWithoutText(items: seq<ContentItem>)
    requires forall i :: 0 <= i < |items| ==> items[i].itemType != "text"
    ensures ItemsText(items) == ""
  {
    if items != [] {
      ItemsTextWithoutText(items[..|items| - 1]);
    }
  }

  /** Content of text items only copies as their texts run together, in order. */
  lemma {:induction false} ItemsTextAllText(items: seq<ContentItem>)
    requires forall i :: 0 <= i < |items| ==> items[i].itemType == "text"
    ensures ItemsText(items) == Concat(seq(|items|, i requires 0 <= i < |items| => items[i].text))
  {
    if items != [] {
      var init := items[..|items| - 1];
      ItemsTextAllText(init);
      var texts := seq(|items|, i requires 0 <= i < |items| => items[i].text);
      assert texts == seq(|init|, i requires 0 <= i < |init| => init[i].text) + [items[|items| - 1].text];
      ConcatAppend(seq(|init|, i requires 0 <= i < |init| => init[i].text), items[|items| - 1].text);
    }
  }

  /**
   * Appending a message to a group: an AI message adds its text after a blank
   * line (or is the whole text when it is the first AI message); any other
   * message leaves the copied text as it was.
   */
  lemma AllAIContentAppend(group: seq<BaseMsg>, m: BaseMsg)
    ensures AllAIContent(group + [m]) ==
      if !IsAI(m) then AllAIContent(group)
      else if Filter(group, IsAI) == [] then ContentText(m.content)
      else AllAIContent(group) + "\n\n" + ContentText(m.content)
  {
    FilterAppend(group, m, IsAI);
    var ais := Filter(group, IsAI);
    if !IsAI(m) {
      assert Filter(group + [m], IsAI) == ais + [] == ais;
    } else {
      assert Filter(group + [m], IsAI) == ais + [m];
      assert Texts(ais + [m]) == Texts(ais) + [ContentText(m.content)];
      JoinAppend(Texts(ais), ContentText(m.content), "\n\n");
    }
  }

  /** `hasAIOrToolMessages` */
  predicate HasAIOrToolMessages(group: seq<BaseMsg>) {
    exists i :: 0 <= i < |group| && (group[i].kind == ChatTree.AI || group[i].kind == ChatTree.Tool)
  }

  /** A group from the grouping has AI or tool messages exactly when it holds more than its opening human message. */
  lemma HasAIOrToolIffAnswered(groups: seq<seq<BaseMsg>>, messages: seq<BaseMsg>, i: nat)
    requires Concat(groups) == Filter(messages, Shown) && WellGrouped(groups)
    requires i < |groups| && groups[i][0].kind == ChatTree.Human
    ensures HasAIOrToolMessages(groups[i]) <==> |groups[i]| > 1
  {
    ConcatShown(groups, messages, i);
    var g := groups[i];
    if |g| > 1 {
      assert g[1] in g && g[1].kind != ChatTree.Human;
    } else {
      assert forall j :: 0 <= j < |g| ==> g[j] == g[0];
    }
  }

  /** Every message of every group is shown. */
  lemma ConcatShown(groups: seq<seq<BaseMsg>>, messages: seq<BaseMsg>, i: nat)
    requires Concat(groups) == Filter(messages, Shown) && i < |groups|
    ensures forall m :: m in groups[i] ==> Shown(m)
  {
    ConcatHolds(groups, i);
  }

  /** Each group's messages appear in the concatenation. */
  lemma {:induction false} ConcatHolds<T>(groups: seq<seq<T>>, i: nat)
    requires i < |groups|
    ensures forall m :: m in groups[i] ==> m in Concat(groups)
  {
    var init := groups[..|groups| - 1];
    assert groups == init + [groups[|groups| - 1]];
    if i < |groups| - 1 {
      ConcatHolds(init, i);
      assert groups[i] == init[i];
    }
  }
}
