// The read side of the checkpointer (convex/checkpointer/queries.ts): one
// checkpoint by id or the newest of a thread, the channel values a
// checkpoint's versions name, the pending sends and pending writes of a
// checkpoint, and the filtered, newest-first listing of a thread's
// checkpoints. Rows are read from the tables of CheckpointStore in
// insertion order.

module CheckpointQueries {
  import opened Strings
  import opened Seqs
  import opened Sorting
  import opened CheckpointStore

  /** A JavaScript string is falsy exactly when it is empty. */
  predicate Given(s: Option<string>) {
    s.Some? && s.value != ""
  }

  predicate InThread(r: CheckpointRow, namespace: string, threadId: string, checkpointNs: string) {
    r.namespace == namespace && r.threadId == threadId && r.checkpointNs == checkpointNs
  }

  // ---------------------------------------------------------------------
  // getCheckpoint

  /**
   * `getCheckpoint`: with an id, the row with the full key; without one (or
   * with an empty one), the newest row of the thread.
   */
  function GetCheckpoint(rows: seq<CheckpointRow>, threadId: string, checkpointNs: string,
                         checkpointId: Option<string>, namespace: string): (r: Option<CheckpointRow>)
    ensures r.Some? ==> r.value in rows && InThread(r.value, namespace, threadId, checkpointNs)
    ensures r.Some? && Given(checkpointId) ==> r.value.checkpointId == checkpointId.value
    ensures r.None? && Given(checkpointId) ==>
      forall row :: row in rows ==> CheckpointKeyOf(row) != CheckpointKey(namespace, threadId, checkpointNs, checkpointId.value)
    ensures r.None? && !Given(checkpointId) ==> forall row :: row in rows ==> !InThread(row, namespace, threadId, checkpointNs)
  {
    if Given(checkpointId) then
      match FindCheckpoint(rows, CheckpointKey(namespace, threadId, checkpointNs, checkpointId.value))
      case Some(i) => Some(rows[i])
      case None => None
    else
      match LastWhere(rows, (row: CheckpointRow) => InThread(row, namespace, threadId, checkpointNs))
      case Some(i) => Some(rows[i])
      case None => None
  }

  /** Without an id the answer is the newest row of the thread: none inserted after it belongs to the thread. */
  lemma GetCheckpointIsNewest(rows: seq<CheckpointRow>, threadId: string, checkpointNs: string, namespace: string)
    ensures var r := GetCheckpoint(rows, threadId, checkpointNs, None, namespace);
      r.Some? ==> (exists i :: 0 <= i < |rows| && rows[i] == r.value
                     && forall j :: i < j < |rows| ==> !InThread(rows[j], namespace, threadId, checkpointNs))
  {
    var found := LastWhere(rows, (row: CheckpointRow) => InThread(row, namespace, threadId, checkpointNs));
    if found.Some? {
      assert rows[found.value] == GetCheckpoint(rows, threadId, checkpointNs, None, namespace).value;
    }
  }

  /** Reading a checkpoint back by its id after `putCheckpoint` gives what was put. */
  lemma GetAfterPut(rows: seq<CheckpointRow>, threadId: string, checkpointNs: string, checkpointId: string,
                    parentCheckpointId: Option<string>, checkpoint: Json, metadata: map<string, Json>,
                    namespace: string, now: int)
    requires checkpointId != ""
    ensures var k := CheckpointKey(namespace, threadId, checkpointNs, checkpointId);
      var r := GetCheckpoint(UpsertCheckpoint(rows, k, parentCheckpointId, checkpoint, metadata, now),
                             threadId, checkpointNs, Some(checkpointId), namespace);
      r.Some? && r.value.checkpoint == checkpoint && r.value.metadata == metadata
      && r.value.parentCheckpointId == parentCheckpointId
  {
    var k := CheckpointKey(namespace, threadId, checkpointNs, checkpointId);
    UpsertCheckpointEffect(rows, k, parentCheckpointId, checkpoint, metadata, now);
  }

  /** A checkpoint put under a new key becomes the thread's newest. */
  lemma NewCheckpointIsLatest(rows: seq<CheckpointRow>, threadId: string, checkpointNs: string, checkpointId: string,
                              parentCheckpointId: Option<string>, checkpoint: Json, metadata: map<string, Json>,
                              namespace: string, now: int)
    requires FindCheckpoint(rows, CheckpointKey(namespace, threadId, checkpointNs, checkpointId)).None?
    ensures var k := CheckpointKey(namespace, threadId, checkpointNs, checkpointId);
      var r := GetCheckpoint(UpsertCheckpoint(rows, k, parentCheckpointId, checkpoint, metadata, now),
                             threadId, checkpointNs, None, namespace);
      r.Some? && r.value.checkpointId == checkpointId && r.value.checkpoint == checkpoint && r.value.creationTime == now
  {
    var k := CheckpointKey(namespace, threadId, checkpointNs, checkpointId);
    var rows' := UpsertCheckpoint(rows, k, parentCheckpointId, checkpoint, metadata, now);
    assert InThread(rows'[|rows'| - 1], namespace, threadId, checkpointNs);
  }

  // ---------------------------------------------------------------------
  // getChannelValues

  /** `channel_versions`: not an object (or null), or its entries with each version as a string. */
  datatype ChannelVersions = NotAnObject | Entries(entries: seq<(string, string)>)

  datatype ChannelValue = ChannelValue(channel: string, blobType: string, blob: Option<Bytes>)

  function ValueOf(b: BlobRow): ChannelValue {
    ChannelValue(b.channel, b.blobType, b.blob)
  }

  /** The value one `(channel, version)` entry contributes: its blob, when there is one. */
  function EntryValue(blobs: seq<BlobRow>, threadId: string, checkpointNs: string, namespace: string,
                      entry: (string, string)): seq<ChannelValue> {
    match FindBlob(blobs, BlobKey(namespace, threadId, checkpointNs, entry.0, entry.1))
    case Some(i) => [ValueOf(blobs[i])]
    case None => []
  }

  function ChannelValues(blobs: seq<BlobRow>, threadId: string, checkpointNs: string,
                         versions: ChannelVersions, namespace: string): seq<ChannelValue> {
    match versions
    case NotAnObject => []
    case Entries(entries) => FlatMap(entries, (e: (string, string)) => EntryValue(blobs, threadId, checkpointNs, namespace, e))
  }

  lemma ChannelValuesStep(blobs: seq<BlobRow>, threadId: string, checkpointNs: string, namespace: string,
                          entries: seq<(string, string)>, i: nat)
    requires i < |entries|
    ensures ChannelValues(blobs, threadId, checkpointNs, Entries(entries[..i + 1]), namespace)
      == ChannelValues(blobs, threadId, checkpointNs, Entries(entries[..i]), namespace)
         + EntryValue(blobs, threadId, checkpointNs, namespace, entries[i])
  {
    assert entries[..i + 1] == entries[..i] + [entries[i]];
    FlatMapAppend(entries[..i], entries[i], (e: (string, string)) => EntryValue(blobs, threadId, checkpointNs, namespace, e));
  }

  /** `getChannelValues`: for each entry in order, the first blob with its channel and version, if any. */
  method GetChannelValues(blobs: seq<BlobRow>, threadId: string, checkpointNs: string,
                          channelVersions: ChannelVersions, namespace: string) returns (results: seq<ChannelValue>)
    ensures results == ChannelValues(blobs, threadId, checkpointNs, channelVersions, namespace)
  {
    if channelVersions.NotAnObject? {
      return [];
    }
    var entries := channelVersions.entries;
    results := [];
    var i := 0;
    while i < |entries|
      invariant 0 <= i <= |entries|
      invariant results == ChannelValues(blobs, threadId, checkpointNs, Entries(entries[..i]), namespace)
    {
      var (channel, version) := entries[i];
      var blob := FindBlob(blobs, BlobKey(namespace, threadId, checkpointNs, channel, version));
      ChannelValuesStep(blobs, threadId, checkpointNs, namespace, entries, i);
      if blob.Some? {
        results := results + [ValueOf(blobs[blob.value])];
      }
      i := i + 1;
    }
    assert entries[..i] == entries;
  }

  /**
   * A value is returned exactly when some entry's channel and version lead
   * to a blob of the thread under the namespace, and it is that first blob's
   * channel, type and data; there is at most one value per entry.
   */
  lemma ChannelValuesMembers(blobs: seq<BlobRow>, threadId: string, checkpointNs: string,
                             entries: seq<(string, string)>, namespace: string, v: ChannelValue)
    ensures v in ChannelValues(blobs, threadId, checkpointNs, Entries(entries), namespace) <==>
      exists e :: e in entries && FindBlob(blobs, BlobKey(namespace, threadId, checkpointNs, e.0, e.1)).Some?
        && v == ValueOf(blobs[FindBlob(blobs, BlobKey(namespace, threadId, checkpointNs, e.0, e.1)).value])
  {
    FlatMapMembers(entries, (e: (string, string)) => EntryValue(blobs, threadId, checkpointNs, namespace, e), v);
  }

  lemma {:induction false} ChannelValuesBound(blobs: seq<BlobRow>, threadId: string, checkpointNs: string,
                                              entries: seq<(string, string)>, namespace: string)
    ensures |ChannelValues(blobs, threadId, checkpointNs, Entries(entries), namespace)| <= |entries|
  {
    if entries != [] {
      var n := |entries| - 1;
      assert entries[..n + 1] == entries;
      ChannelValuesStep(blobs, threadId, checkpointNs, namespace, entries, n);
      ChannelValuesBound(blobs, threadId, checkpointNs, entries[..n], namespace);
    }
  }

  // ---------------------------------------------------------------------
  // getPendingSends and getPendingWrites

  /** Sorting the rows that pass a test keeps exactly those rows. */
  lemma SortedFilterMembers<T(!new)>(s: seq<T>, p: T -> bool, le: (T, T) -> bool)
    requires TotalPreorder(le)
    ensures forall x :: x in SortBy(Filter(s, p), le) <==> x in s && p(x)
  {
    FilterKeeps(s, p);
    var sorted := SortBy(Filter(s, p), le);
    assert forall x :: x in sorted <==> x in multiset(Filter(s, p));
  }

  const TasksChannel := "__pregel_tasks__"

  predicate OfCheckpoint(w: WriteRow, namespace: string, threadId: string, checkpointNs: string, checkpointId: string) {
    w.namespace == namespace && w.threadId == threadId && w.checkpointNs == checkpointNs && w.checkpointId == checkpointId
  }

  /** `(a, b) => a.idx - b.idx` as an order. */
  predicate IdxLe(a: WriteRow, b: WriteRow) {
    a.idx <= b.idx
  }

  lemma IdxLeTotalPreorder()
    ensures TotalPreorder(IdxLe)
  {
  }

  datatype PendingSend = PendingSend(sendType: string, blob: Bytes)

  /** The parent checkpoint's task writes, in index order, then ordered by `idx` (stably). */
  function PendingSendRows(writes: seq<WriteRow>, threadId: string, checkpointNs: string,
                           parentCheckpointId: string, namespace: string): seq<WriteRow> {
    IdxLeTotalPreorder();
    SortBy(Filter(writes, (w: WriteRow) => OfCheckpoint(w, namespace, threadId, checkpointNs, parentCheckpointId)
                                           && w.channel == TasksChannel), IdxLe)
  }

  /** `getPendingSends`: nothing without a parent checkpoint id. */
  function GetPendingSends(writes: seq<WriteRow>, threadId: string, checkpointNs: string,
                           parentCheckpointId: Option<string>, namespace: string): (r: seq<PendingSend>)
    ensures !Given(parentCheckpointId) ==> r == []
  {
    if !Given(parentCheckpointId) then []
    else MapAll(PendingSendRows(writes, threadId, checkpointNs, parentCheckpointId.value, namespace),
                (w: WriteRow) => PendingSend(w.writeType, w.blob))
  }

  /**
   * The pending sends are the parent's `__pregel_tasks__` writes, all of
   * them and no others, in ascending `idx` order.
   */
  lemma PendingSendsSpec(writes: seq<WriteRow>, threadId: string, checkpointNs: string,
                         parentCheckpointId: string, namespace: string)
    ensures var rows := PendingSendRows(writes, threadId, checkpointNs, parentCheckpointId, namespace);
      && SortedBy(rows, IdxLe)
      && (forall w :: w in rows <==>
            w in writes && OfCheckpoint(w, namespace, threadId, checkpointNs, parentCheckpointId) && w.channel == TasksChannel)
      && GetPendingSends(writes, threadId, checkpointNs, Some(parentCheckpointId), namespace)
         == (if parentCheckpointId == "" then [] else MapAll(rows, (w: WriteRow) => PendingSend(w.writeType, w.blob)))
  {
    IdxLeTotalPreorder();
    SortedFilterMembers(writes, (w: WriteRow) => OfCheckpoint(w, namespace, threadId, checkpointNs, parentCheckpointId)
                                                 && w.channel == TasksChannel, IdxLe);
  }

  /** `localeCompare` on task ids, then `idx`, as an order. */
  predicate TaskIdxLe(a: WriteRow, b: WriteRow) {
    LexLess(a.taskId, b.taskId) || (a.taskId == b.taskId && a.idx <= b.idx)
  }

  lemma TaskIdxLeTotalPreorder()
    ensures TotalPreorder(TaskIdxLe)
  {
    forall a, b ensures TaskIdxLe(a, b) || TaskIdxLe(b, a) {
      LexLessTotal(a.taskId, b.taskId);
    }
    forall a, b, c | TaskIdxLe(a, b) && TaskIdxLe(b, c) ensures TaskIdxLe(a, c) {
      if LexLess(a.taskId, b.taskId) && LexLess(b.taskId, c.taskId) {
        LexLessTransitive(a.taskId, b.taskId, c.taskId);
      }
    }
  }

  datatype PendingWrite = PendingWrite(taskId: string, channel: string, writeType: string, blob: Bytes)

  function PendingWriteRows(writes: seq<WriteRow>, threadId: string, checkpointNs: string,
                            checkpointId: string, namespace: string): seq<WriteRow> {
    TaskIdxLeTotalPreorder();
    SortBy(Filter(writes, (w: WriteRow) => OfCheckpoint(w, namespace, threadId, checkpointNs, checkpointId)), TaskIdxLe)
  }

  /** `getPendingWrites` */
  function GetPendingWrites(writes: seq<WriteRow>, threadId: string, checkpointNs: string,
                            checkpointId: string, namespace: string): (r: seq<PendingWrite>)
    ensures |r| == |PendingWriteRows(writes, threadId, checkpointNs, checkpointId, namespace)|
  {
    MapAll(PendingWriteRows(writes, threadId, checkpointNs, checkpointId, namespace),
           (w: WriteRow) => PendingWrite(w.taskId, w.channel, w.writeType, w.blob))
  }

  /**
   * The pending writes are every write of the checkpoint and no other,
   * grouped by task id in ascending order and by `idx` within a task.
   */
  lemma PendingWritesSpec(writes: seq<WriteRow>, threadId: string, checkpointNs: string,
                          checkpointId: string, namespace: string)
    ensures var rows := PendingWriteRows(writes, threadId, checkpointNs, checkpointId, namespace);
      && SortedBy(rows, TaskIdxLe)
      && (forall w :: w in rows <==> w in writes && OfCheckpoint(w, namespace, threadId, checkpointNs, checkpointId))
      && (forall i, j :: 0 <= i < j < |rows| ==>
            LexLe(rows[i].taskId, rows[j].taskId) && (rows[i].taskId == rows[j].taskId ==> rows[i].idx <= rows[j].idx))
  {
    TaskIdxLeTotalPreorder();
    SortedFilterMembers(writes, (w: WriteRow) => OfCheckpoint(w, namespace, threadId, checkpointNs, checkpointId), TaskIdxLe);
    var rows := PendingWriteRows(writes, threadId, checkpointNs, checkpointId, namespace);
    forall i, j | 0 <= i < j < |rows|
      ensures LexLe(rows[i].taskId, rows[j].taskId)
    {
      assert TaskIdxLe(rows[i], rows[j]);
      if LexLess(rows[i].taskId, rows[j].taskId) && LexLess(rows[j].taskId, rows[i].taskId) {
        LexLessTransitive(rows[i].taskId, rows[j].taskId, rows[i].taskId);
        LexLessIrreflexive(rows[i].taskId);
      }
      if rows[i].taskId == rows[j].taskId {
        LexLessIrreflexive(rows[i].taskId);
      }
    }
  }

  // ---------------------------------------------------------------------
  // listCheckpoints

  /** Every key of a non-empty metadata filter is present in the metadata with the same value. */
  predicate MetadataMatches(metadata: map<string, Json>, filter: Option<map<string, Json>>) {
    filter.None? || |filter.value| == 0 ||
    forall key :: key in filter.value ==> key in metadata && metadata[key] == filter.value[key]
  }

  /** The filters of `listCheckpoints`, each applied only when its argument is given. */
  predicate Listed(r: CheckpointRow, namespace: string, threadId: string, checkpointNs: string,
                   checkpointId: Option<string>, filter: Option<map<string, Json>>, before: Option<string>) {
    && InThread(r, namespace, threadId, checkpointNs)
    && (Given(checkpointId) ==> r.checkpointId == checkpointId.value)
    && (Given(before) ==> LexLess(r.checkpointId, before.value))
    && MetadataMatches(r.metadata, filter)
  }

  /** Creation time descending. */
  predicate NewerFirst(a: CheckpointRow, b: CheckpointRow) {
    a.creationTime >= b.creationTime
  }

  lemma NewerFirstTotalPreorder()
    ensures TotalPreorder(NewerFirst)
  {
  }

  /** `sorted.slice(0, limit)` for a non-zero integer limit: a negative limit drops that many from the end. */
  function SliceToLimit<T>(s: seq<T>, limit: int): (r: seq<T>)
    ensures |r| <= |s| && r == s[..|r|]
    ensures limit > 0 ==> |r| == if limit < |s| then limit else |s|
    ensures limit < 0 ==> |r| == if |s| + limit > 0 then |s| + limit else 0
  {
    if limit >= 0 then (if limit < |s| then s[..limit] else s)
    else if |s| + limit > 0 then s[..|s| + limit]
    else []
  }

  /** The rows that pass every given filter, newest first. */
  function ListedRows(rows: seq<CheckpointRow>, threadId: string, checkpointNs: string, checkpointId: Option<string>,
                      filter: Option<map<string, Json>>, before: Option<string>, namespace: string): (r: seq<CheckpointRow>)
    ensures multiset(r) == multiset(Filter(rows, (x: CheckpointRow) => Listed(x, namespace, threadId, checkpointNs, checkpointId, filter, before)))
    ensures SortedBy(r, NewerFirst)
  {
    NewerFirstTotalPreorder();
    SortBy(Filter(rows, (r: CheckpointRow) => Listed(r, namespace, threadId, checkpointNs, checkpointId, filter, before)),
           NewerFirst)
  }

  /** `listCheckpoints`: the listed rows newest first, cut to the limit when one (non-zero) is given. */
  function ListCheckpoints(rows: seq<CheckpointRow>, threadId: string, checkpointNs: string, checkpointId: Option<string>,
                           filter: Option<map<string, Json>>, before: Option<string>, limit: Option<int>,
                           namespace: string): (r: seq<CheckpointRow>)
    ensures var sorted := ListedRows(rows, threadId, checkpointNs, checkpointId, filter, before, namespace);
      && |r| <= |sorted| && r == sorted[..|r|]
      && (limit.Some? && limit.value > 0 ==> |r| == if limit.value < |sorted| then limit.value else |sorted|)
      && (limit.None? || limit.value == 0 ==> r == sorted)
  {
    var sorted := ListedRows(rows, threadId, checkpointNs, checkpointId, filter, before, namespace);
    if limit.Some? && limit.value != 0 then SliceToLimit(sorted, limit.value) else sorted
  }

  /**
   * The listing holds only rows of the thread that pass every given filter,
   * newest first; without a limit (or with 0) it holds every such row; and
   * no listed row left out by a limit is newer than the last row kept.
   */
  lemma ListCheckpointsSpec(rows: seq<CheckpointRow>, threadId: string, checkpointNs: string, checkpointId: Option<string>,
                            filter: Option<map<string, Json>>, before: Option<string>, limit: Option<int>,
                            namespace: string)
    ensures var r := ListCheckpoints(rows, threadId, checkpointNs, checkpointId, filter, before, limit, namespace);
      var sorted := ListedRows(rows, threadId, checkpointNs, checkpointId, filter, before, namespace);
      && (forall x :: x in r ==> x in rows && Listed(x, namespace, threadId, checkpointNs, checkpointId, filter, before))
      && (forall i, j :: 0 <= i < j < |r| ==> r[i].creationTime >= r[j].creationTime)
      && (limit.None? || limit.value == 0 ==>
            forall x :: x in rows && Listed(x, namespace, threadId, checkpointNs, checkpointId, filter, before) ==> x in r)
      && (forall k :: |r| <= k < |sorted| && r != [] ==> sorted[k].creationTime <= r[|r| - 1].creationTime)
  {
    NewerFirstTotalPreorder();
    var p := (x: CheckpointRow) => Listed(x, namespace, threadId, checkpointNs, checkpointId, filter, before);
    SortedFilterMembers(rows, p, NewerFirst);
    var sorted := ListedRows(rows, threadId, checkpointNs, checkpointId, filter, before, namespace);
    var r := ListCheckpoints(rows, threadId, checkpointNs, checkpointId, filter, before, limit, namespace);
    NewestPrefix(sorted, |r|);
    assert forall x :: x in r ==> x in sorted;
  }

  /** A prefix of rows sorted newest first is sorted too, and no row after it is newer than its last. */
  lemma NewestPrefix(sorted: seq<CheckpointRow>, n: nat)
    requires n <= |sorted| && SortedBy(sorted, NewerFirst)
    ensures forall i, j :: 0 <= i < j < n ==> sorted[..n][i].creationTime >= sorted[..n][j].creationTime
    ensures forall k :: n <= k < |sorted| && n > 0 ==> sorted[k].creationTime <= sorted[..n][n - 1].creationTime
  {
    assert forall i :: 0 <= i < n ==> sorted[..n][i] == sorted[i];
    assert forall i, j :: 0 <= i < j < |sorted| ==> NewerFirst(sorted[i], sorted[j]);
  }
}
