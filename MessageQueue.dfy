// The per-chat queue of messages waiting to be sent, kept by
// src/hooks/chats/use-message-queue.ts in a shared atom: a map from chat id
// to the list of queued messages of that chat, oldest first.

module MessageQueue {
  import opened Strings
  import opened Seqs

  /** `QueueMessage`; `id` and `createdAt` come from the clock and a random suffix. */
  datatype QueueMessage = QueueMessage(id: string, text: string, documents: seq<string>, createdAt: int)

  /** `queues[chatId] ?? []` */
  function QueueOf(queues: map<string, seq<QueueMessage>>, chatId: string): (r: seq<QueueMessage>)
    ensures chatId !in queues ==> r == []
  {
    if chatId in queues then queues[chatId] else []
  }

  /** `queue.findIndex((m) => m.id === messageId)`, with `None` for -1. */
  function FirstIndexOf(queue: seq<QueueMessage>, messageId: string): (r: Option<nat>)
    ensures r.None? <==> forall i :: 0 <= i < |queue| ==> queue[i].id != messageId
    ensures r.Some? ==>
      && r.value < |queue| && queue[r.value].id == messageId
      && forall j :: 0 <= j < r.value ==> queue[j].id != messageId
  {
    if queue == [] then None
    else if queue[0].id == messageId then Some(0)
    else
      var rest := FirstIndexOf(queue[1..], messageId);
      if rest.None? then None else Some(rest.value + 1)
  }

  /** `{ ...message, ...updates }` for updates that may carry a new text and new documents. */
  function Apply(m: QueueMessage, text: Option<string>, documents: Option<seq<string>>): (r: QueueMessage)
    ensures r.id == m.id && r.createdAt == m.createdAt
  {
    m.(text := if text.Some? then text.value else m.text,
       documents := if documents.Some? then documents.value else m.documents)
  }

  /**
   * The queue after `updateMessage`: only the first message with the id takes
   * the updates; with no such message the queue is unchanged.
   */
  function UpdateFirst(queue: seq<QueueMessage>, messageId: string, text: Option<string>, documents: Option<seq<string>>)
    : (r: seq<QueueMessage>)
    ensures |r| == |queue|
    ensures (forall i :: 0 <= i < |queue| ==> queue[i].id != messageId) ==> r == queue
    ensures forall i :: 0 <= i < |queue| && queue[i].id == messageId && (forall j :: 0 <= j < i ==> queue[j].id != messageId) ==>
      r[i] == Apply(queue[i], text, documents) && forall k :: 0 <= k < |queue| && k != i ==> r[k] == queue[k]
  {
    var index := FirstIndexOf(queue, messageId);
    if index.Some? then queue[index.value := Apply(queue[index.value], text, documents)] else queue
  }

  /**
   * The queue after `reorderMessage`: both indices in range move one message
   * (a permutation that puts it at `toIndex`); otherwise nothing moves.
   */
  function Reorder(queue: seq<QueueMessage>, fromIndex: int, toIndex: int): (r: seq<QueueMessage>)
    ensures |r| == |queue| && multiset(r) == multiset(queue)
    ensures !(0 <= fromIndex < |queue| && 0 <= toIndex < |queue|) ==> r == queue
    ensures 0 <= fromIndex < |queue| && 0 <= toIndex < |queue| ==> r[toIndex] == queue[fromIndex]
  {
    if 0 <= fromIndex < |queue| && 0 <= toIndex < |queue| then Move(queue, fromIndex, toIndex) else queue
  }

  /** Moving a message back to where it came from restores the queue. */
  lemma ReorderUndo(queue: seq<QueueMessage>, fromIndex: int, toIndex: int)
    ensures Reorder(Reorder(queue, fromIndex, toIndex), toIndex, fromIndex) == queue
  {
    if 0 <= fromIndex < |queue| && 0 <= toIndex < |queue| {
      MoveInverse(queue, fromIndex, toIndex);
    }
  }

  predicate HasOtherId(messageId: string, m: QueueMessage) {
    m.id != messageId
  }

  /** The queue after `removeMessage`: every message with the id goes, the rest stay in order. */
  function RemoveAll(queue: seq<QueueMessage>, messageId: string): (r: seq<QueueMessage>) {
    Filter(queue, m => HasOtherId(messageId, m))
  }

  /** A message is left after `removeMessage` exactly when it was queued under another id. */
  lemma RemoveAllMembers(queue: seq<QueueMessage>, messageId: string)
    ensures forall m :: m in RemoveAll(queue, messageId) <==> m in queue && m.id != messageId
  {
    FilterKeeps(queue, m => HasOtherId(messageId, m));
  }

  /** The queues of every chat, `messageQueuesAtom`. */
  class Queues {
    var queues: map<string, seq<QueueMessage>>

    constructor ()
      ensures queues == map[]
    {
      queues := map[];
    }

    /** `getQueue`: an unknown chat has an empty queue. */
    function GetQueue(chatId: string): (r: seq<QueueMessage>)
      reads this
      ensures chatId !in queues ==> r == []
    {
      QueueOf(queues, chatId)
    }

    /** `enqueueMessage`: the new message goes to the end of that chat's queue only. */
    method Enqueue(chatId: string, text: string, documents: seq<string>, id: string, now: int)
      modifies this
      ensures queues == old(queues)[chatId := QueueOf(old(queues), chatId) + [QueueMessage(id, text, documents, now)]]
    {
      var message := QueueMessage(id, text, documents, now);
      queues := queues[chatId := QueueOf(queues, chatId) + [message]];
    }

    /** `dequeueMessage`: an empty queue gives nothing and changes nothing; otherwise the oldest message leaves. */
    method Dequeue(chatId: string) returns (message: Option<QueueMessage>)
      modifies this
      ensures QueueOf(old(queues), chatId) == [] ==> message.None? && queues == old(queues)
      ensures QueueOf(old(queues), chatId) != [] ==>
        && message == Some(QueueOf(old(queues), chatId)[0])
        && queues == old(queues)[chatId := QueueOf(old(queues), chatId)[1..]]
    {
      var queue := QueueOf(queues, chatId);
      if |queue| == 0 {
        return None;
      }
      message := Some(queue[0]);
      queues := queues[chatId := queue[1..]];
    }

    /** `updateMessage` */
    method Update(chatId: string, messageId: string, text: Option<string>, documents: Option<seq<string>>)
      modifies this
      ensures queues == old(queues)[chatId := UpdateFirst(QueueOf(old(queues), chatId), messageId, text, documents)]
    {
      var queue := QueueOf(queues, chatId);
      var index := FirstIndexOf(queue, messageId);
      if index.Some? {
        queue := queue[index.value := Apply(queue[index.value], text, documents)];
      }
      queues := queues[chatId := queue];
    }

    /** `reorderMessage`: splice the message out, then splice it in at the target index. */
    method ReorderMessage(chatId: string, fromIndex: int, toIndex: int)
      modifies this
      ensures queues == old(queues)[chatId := Reorder(QueueOf(old(queues), chatId), fromIndex, toIndex)]
    {
      var queue := QueueOf(queues, chatId);
      if 0 <= fromIndex < |queue| && 0 <= toIndex < |queue| {
        var item := queue[fromIndex];
        queue := RemoveAt(queue, fromIndex);
        queue := InsertAt(queue, toIndex, item);
      }
      queues := queues[chatId := queue];
    }

    /** `removeMessage` */
    method Remove(chatId: string, messageId: string)
      modifies this
      ensures queues == old(queues)[chatId := RemoveAll(QueueOf(old(queues), chatId), messageId)]
    {
      queues := queues[chatId := RemoveAll(QueueOf(queues, chatId), messageId)];
    }

    /** `clearQueue`: that chat's queue becomes empty, the others are untouched. */
    method Clear(chatId: string)
      modifies this
      ensures queues == old(queues)[chatId := []]
    {
      queues := queues[chatId := []];
    }
  }
}
