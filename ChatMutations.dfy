// The chat-message mutations of convex/chatMessages/mutations.ts that
// carry logic of their own: the content layout of a new human message in
// `create`, and `remove`, which deletes one message or, when cascading, the
// message and everything below it, found breadth first.

module ChatMutations {
  import opened ChatTree

  // ---------------------------------------------------------------------
  // create

  /** One part of a human message's content. */
  datatype ContentPart = TextPart(text: string) | FilePart(fileId: string)

  /** The content `create` stores: the text, then one file part per document, in order. */
  function CreateContent(text: string, documents: seq<string>): (r: seq<ContentPart>)
    ensures |r| == |documents| + 1 && r[0].TextPart?
    ensures forall i :: 1 <= i < |r| ==> r[i].FilePart?
  {
    [TextPart(text)] + seq(|documents|, i requires 0 <= i < |documents| => FilePart(documents[i]))
  }

  /** The text a stored content starts with. */
  function ContentText(parts: seq<ContentPart>): string {
    if |parts| > 0 && parts[0].TextPart? then parts[0].text else ""
  }

  /** The document ids of the file parts, in order. */
  function ContentFiles(parts: seq<ContentPart>): seq<string> {
    if parts == [] then []
    else (if parts[0].FilePart? then [parts[0].fileId] else []) + ContentFiles(parts[1..])
  }

  /** A file-only tail gives back its ids one for one. */
  lemma {:induction false} FilesOfFileParts(parts: seq<ContentPart>, documents: seq<string>)
    requires |parts| == |documents| && forall i :: 0 <= i < |parts| ==> parts[i] == FilePart(documents[i])
    ensures ContentFiles(parts) == documents
  {
    if parts != [] {
      FilesOfFileParts(parts[1..], documents[1..]);
    }
  }

  /** The stored content gives back the text and the documents, in their order. */
  lemma CreateContentRoundTrip(text: string, documents: seq<string>)
    ensures ContentText(CreateContent(text, documents)) == text
    ensures ContentFiles(CreateContent(text, documents)) == documents
  {
    var r := CreateContent(text, documents);
    assert r[1..] == seq(|documents|, i requires 0 <= i < |documents| => FilePart(documents[i]));
    FilesOfFileParts(r[1..], documents);
  }

  // ---------------------------------------------------------------------
  // remove

  /** `childrenMap.get(id) || []` */
  function Kids(childrenMap: map<string, seq<Msg>>, id: string): seq<Msg> {
    if id in childrenMap then childrenMap[id] else []
  }

  /** Each message of `p` is a child of the one before, in the children map. */
  ghost predicate DescentPath(childrenMap: map<string, seq<Msg>>, p: seq<Msg>) {
    forall k :: 0 <= k < |p| - 1 ==> p[k + 1] in Kids(childrenMap, p[k].id)
  }

  /** `m` is `root` or a transitive descendant of it. */
  ghost predicate Descends(childrenMap: map<string, seq<Msg>>, root: Msg, m: Msg) {
    exists p: seq<Msg> :: |p| >= 1 && p[0] == root && p[|p| - 1] == m && DescentPath(childrenMap, p)
  }

  /** A set of ids that holds every child of each of its ids. */
  ghost predicate ClosedUnderChildren(childrenMap: map<string, seq<Msg>>, ids: set<string>) {
    forall id, c :: id in ids && c in Kids(childrenMap, id) ==> c.id in ids
  }

  function IdsOf(q: seq<Msg>): set<string> {
    set m | m in q :: m.id
  }

  /** Every id the children map mentions, and `root`'s. */
  function KnownIds(childrenMap: map<string, seq<Msg>>, root: Msg): set<string> {
    {root.id} + set p, c | p in childrenMap && c in childrenMap[p] :: c.id
  }

  /** A child of a descendant is a descendant. */
  lemma DescendsStep(childrenMap: map<string, seq<Msg>>, root: Msg, m: Msg, c: Msg)
    requires Descends(childrenMap, root, m) && c in Kids(childrenMap, m.id)
    ensures Descends(childrenMap, root, c)
  {
    var p: seq<Msg> :| |p| >= 1 && p[0] == root && p[|p| - 1] == m && DescentPath(childrenMap, p);
    var p' := p + [c];
    forall k | 0 <= k < |p'| - 1 ensures p'[k + 1] in Kids(childrenMap, p'[k].id) {
      assert p'[k] == p[k];
      if k + 1 < |p| {
        assert p'[k + 1] == p[k + 1];
      }
    }
    assert |p'| >= 1 && p'[0] == root && p'[|p'| - 1] == c && DescentPath(childrenMap, p');
  }

  /** A set closed under children that holds `root`'s id holds every descendant's id. */
  lemma ClosedHoldsDescendants(childrenMap: map<string, seq<Msg>>, root: Msg, ids: set<string>, m: Msg)
    requires root.id in ids && ClosedUnderChildren(childrenMap, ids)
    requires Descends(childrenMap, root, m)
    ensures m.id in ids
  {
    var p: seq<Msg> :| |p| >= 1 && p[0] == root && p[|p| - 1] == m && DescentPath(childrenMap, p);
    for k := 0 to |p|
      invariant forall j :: 0 <= j < k ==> p[j].id in ids
    {
      if k > 0 {
        assert p[k] in Kids(childrenMap, p[k - 1].id);
      }
    }
  }

  /**
   * The state of the breadth-first search: every queued message descends
   * from `root`, and the marked ids (the keys of `messagesToDelete`) are
   * the queued messages' ids, one per queued message.
   */
  ghost predicate SearchInv(childrenMap: map<string, seq<Msg>>, root: Msg, marked: set<string>, queue: seq<Msg>) {
    && |queue| >= 1 && queue[0] == root
    && marked == IdsOf(queue)
    && |marked| == |queue|
    && (forall k :: 0 <= k < |queue| ==> Descends(childrenMap, root, queue[k]))
  }

  /** Marking and queueing a child of a queued message whose id is not yet marked keeps the search state. */
  lemma VisitChild(childrenMap: map<string, seq<Msg>>, root: Msg, marked: set<string>,
                   queue: seq<Msg>, parent: Msg, c: Msg)
    requires SearchInv(childrenMap, root, marked, queue)
    requires Descends(childrenMap, root, parent) && c in Kids(childrenMap, parent.id)
    requires c.id !in marked
    ensures SearchInv(childrenMap, root, marked + {c.id}, queue + [c])
  {
    var q := queue + [c];
    DescendsStep(childrenMap, root, parent, c);
    assert IdsOf(q) == IdsOf(queue) + {c.id} by {
      assert forall x :: x in q <==> x in queue || x == c;
    }
    assert forall k :: 0 <= k < |queue| ==> q[k] == queue[k];
  }

  /** Subsets are no larger. */
  lemma SubsetCard(a: set<string>, b: set<string>)
    requires a <= b
    ensures |a| <= |b|
  {
    assert b == a + (b - a);
  }

  /** What the inner loop keeps after handling the first `j` children. */
  ghost predicate ChildrenInv(childrenMap: map<string, seq<Msg>>, root: Msg, children: seq<Msg>, j: nat,
                              queue0: seq<Msg>, marked: set<string>, queue: seq<Msg>)
    requires j <= |children|
  {
    && SearchInv(childrenMap, root, marked, queue)
    && (forall i :: 0 <= i < j ==> children[i].id in marked)
    && queue0 <= queue
    && (forall k :: |queue0| <= k < |queue| ==> queue[k] in children[..j])
  }

  lemma ChildrenStep(childrenMap: map<string, seq<Msg>>, root: Msg, parent: Msg, children: seq<Msg>, j: nat,
                     queue0: seq<Msg>, marked: set<string>, queue: seq<Msg>, marked': set<string>, queue': seq<Msg>)
    requires children == Kids(childrenMap, parent.id) && Descends(childrenMap, root, parent)
    requires j < |children| && ChildrenInv(childrenMap, root, children, j, queue0, marked, queue)
    requires children[j].id !in marked ==> marked' == marked + {children[j].id} && queue' == queue + [children[j]]
    requires children[j].id in marked ==> marked' == marked && queue' == queue
    ensures ChildrenInv(childrenMap, root, children, j + 1, queue0, marked', queue')
  {
    if children[j].id !in marked {
      VisitChild(childrenMap, root, marked, queue, parent, children[j]);
      assert forall k :: 0 <= k < |queue| ==> queue'[k] == queue[k];
    }
    assert forall k :: 0 <= k < j ==> children[..j + 1][k] == children[..j][k];
  }

  /**
   * The inner `for (const child of children)`: each child whose id is not
   * yet marked is marked and queued.
   */
  method QueueChildren(ghost childrenMap: map<string, seq<Msg>>, ghost root: Msg, parent: Msg, children: seq<Msg>,
                       marked0: set<string>, queue0: seq<Msg>)
    returns (marked: set<string>, queue: seq<Msg>)
    requires children == Kids(childrenMap, parent.id)
    requires SearchInv(childrenMap, root, marked0, queue0) && Descends(childrenMap, root, parent)
    ensures ChildrenInv(childrenMap, root, children, |children|, queue0, marked, queue)
  {
    marked, queue := marked0, queue0;
    for j := 0 to |children|
      invariant ChildrenInv(childrenMap, root, children, j, queue0, marked, queue)
    {
      var child := children[j];
      ghost var marked', queue' := marked, queue;
      if child.id !in marked {
        marked := marked + {child.id};
        queue := queue + [child];
      }
      ChildrenStep(childrenMap, root, parent, children, j, queue0, marked', queue', marked, queue);
    }
  }

  /** The loop state of the cascade: the first `head` queued messages have had their children marked. */
  ghost predicate CascadeInv(childrenMap: map<string, seq<Msg>>, root: Msg, known: set<string>,
                             marked: set<string>, queue: seq<Msg>, head: nat) {
    && SearchInv(childrenMap, root, marked, queue)
    && head <= |queue|
    && (forall k, c :: 0 <= k < head && c in Kids(childrenMap, queue[k].id) ==> c.id in marked)
    && marked <= known
  }

  lemma CascadeStep(childrenMap: map<string, seq<Msg>>, root: Msg, known: set<string>,
                    marked: set<string>, queue: seq<Msg>, head: nat, marked': set<string>, queue': seq<Msg>)
    requires known == KnownIds(childrenMap, root)
    requires CascadeInv(childrenMap, root, known, marked, queue, head) && head < |queue|
    requires ChildrenInv(childrenMap, root, Kids(childrenMap, queue[head].id), |Kids(childrenMap, queue[head].id)|,
                         queue, marked', queue')
    ensures CascadeInv(childrenMap, root, known, marked', queue', head + 1)
    ensures |queue'| <= |known|
  {
    var children := Kids(childrenMap, queue[head].id);
    assert forall k :: 0 <= k < |queue| ==> queue'[k] == queue[k];
    assert marked <= marked' by {
      forall id | id in marked ensures id in marked' {
        var k :| 0 <= k < |queue| && queue[k].id == id;
        assert queue'[k] == queue[k];
      }
    }
    forall k, c | 0 <= k < head + 1 && c in Kids(childrenMap, queue'[k].id) ensures c.id in marked' {
      assert queue'[k] == queue[k];
      if k == head {
        var i :| 0 <= i < |children| && children[i] == c;
      }
    }
    forall id | id in marked' ensures id in known {
      var k :| 0 <= k < |queue'| && queue'[k].id == id;
      if k >= |queue| {
        assert queue[head].id in childrenMap && queue'[k] in childrenMap[queue[head].id];
      } else {
        assert queue[k].id in marked;
      }
    }
    SubsetCard(marked', known);
  }

  /**
   * The cascade of `remove`: a breadth-first search from `message` over the
   * children map that marks each id once. The ids marked are `message`'s
   * and those of its descendants, and no others.
   */
  method CascadeIds(message: Msg, childrenMap: map<string, seq<Msg>>) returns (deleted: set<string>)
    ensures message.id in deleted
    ensures ClosedUnderChildren(childrenMap, deleted)
    ensures forall id :: id in deleted ==> exists m: Msg :: m.id == id && Descends(childrenMap, message, m)
  {
    var marked: set<string> := {message.id};
    var queue: seq<Msg> := [message];
    assert Descends(childrenMap, message, message) by {
      assert DescentPath(childrenMap, [message]);
    }
    assert IdsOf(queue) == {message.id};
    ghost var known := KnownIds(childrenMap, message);
    var head := 0;
    while head < |queue|
      invariant CascadeInv(childrenMap, message, known, marked, queue, head)
      invariant |queue| <= |known|
      decreases |known| - head
    {
      var current := queue[head];
      var children := if current.id in childrenMap then childrenMap[current.id] else [];
      ghost var marked0, queue0 := marked, queue;
      marked, queue := QueueChildren(childrenMap, message, current, children, marked, queue);
      CascadeStep(childrenMap, message, known, marked0, queue0, head, marked, queue);
      head := head + 1;
    }
    deleted := marked;
    forall id, c | id in deleted && c in Kids(childrenMap, id) ensures c.id in deleted {
      var k :| 0 <= k < |queue| && queue[k].id == id;
    }
    forall id | id in deleted ensures exists m: Msg :: m.id == id && Descends(childrenMap, message, m) {
      var k :| 0 <= k < |queue| && queue[k].id == id;
    }
  }

  /**
   * `remove(id, cascade)` on the chat's stored messages `rows`: an unknown id
   * deletes nothing; without cascade exactly the message goes; with cascade
   * the message and every descendant in the children map go, and every
   * other message stays as it was.
   */
  method Remove(rows: map<string, Msg>, id: string, cascade: bool, childrenMap: map<string, seq<Msg>>)
    returns (rows': map<string, Msg>)
    ensures id !in rows ==> rows' == rows
    ensures id in rows && !cascade ==> rows' == rows - {id}
    ensures forall x :: x in rows' ==> x in rows && rows'[x] == rows[x]
    ensures id in rows && cascade ==>
      forall m :: Descends(childrenMap, rows[id], m) ==> m.id !in rows'
    ensures id in rows && cascade ==>
      forall x :: x in rows && (forall m :: Descends(childrenMap, rows[id], m) ==> m.id != x) ==> x in rows'
  {
    if id !in rows {
      return rows;
    }
    var message := rows[id];
    if !cascade {
      return rows - {id};
    }
    var deleted := CascadeIds(message, childrenMap);
    rows' := rows - deleted;
    forall m | Descends(childrenMap, message, m) ensures m.id !in rows' {
      ClosedHoldsDescendants(childrenMap, message, deleted, m);
    }
  }
}
