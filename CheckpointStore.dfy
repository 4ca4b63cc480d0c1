// The three tables behind the graph checkpointer
// (convex/checkpointer/mutations.ts): checkpoints upserted by their key,
// channel blobs inserted only when absent, and pending writes upserted so
// that the last write wins. A table is a sequence of rows in insertion
// order; a lookup through an index with every key field fixed returns the
// first row, in that order, with the key. Serialised payloads are kept as
// text and bytes; the creation time of a new row is an input.

module CheckpointStore {
  import opened Strings
  import opened Seqs

  type Bytes = seq<bv8>

  /** A `v.any()` value, as its serialised text. */
  type Json = string

  datatype CheckpointRow = CheckpointRow(
    namespace: string,
    threadId: string,
    checkpointNs: string,
    checkpointId: string,
    parentCheckpointId: Option<string>,
    checkpoint: Json,
    metadata: map<string, Json>,
    creationTime: int)

  datatype BlobRow = BlobRow(
    threadId: string,
    checkpointNs: string,
    channel: string,
    version: string,
    blobType: string,
    blob: Option<Bytes>,
    namespace: string)

  datatype WriteRow = WriteRow(
    threadId: string,
    checkpointNs: string,
    checkpointId: string,
    taskId: string,
    idx: int,
    channel: string,
    writeType: string,
    blob: Bytes,
    namespace: string)

  /** The `by_checkpoint` index key of a checkpoint. */
  datatype CheckpointKey = CheckpointKey(namespace: string, threadId: string, checkpointNs: string, checkpointId: string)

  /** The `by_channel` index key of a blob. */
  datatype BlobKey = BlobKey(namespace: string, threadId: string, checkpointNs: string, channel: string, version: string)

  /** The `by_task` index key of a write. */
  datatype WriteKey = WriteKey(namespace: string, threadId: string, checkpointNs: string, checkpointId: string, taskId: string, idx: int)

  function CheckpointKeyOf(r: CheckpointRow): CheckpointKey {
    CheckpointKey(r.namespace, r.threadId, r.checkpointNs, r.checkpointId)
  }

  function BlobKeyOf(b: BlobRow): BlobKey {
    BlobKey(b.namespace, b.threadId, b.checkpointNs, b.channel, b.version)
  }

  function WriteKeyOf(w: WriteRow): WriteKey {
    WriteKey(w.namespace, w.threadId, w.checkpointNs, w.checkpointId, w.taskId, w.idx)
  }

  /** The key a blob is looked up under: the call's namespace with the blob's other fields. */
  function BlobLookup(b: BlobRow, namespace: string): BlobKey {
    BlobKey(namespace, b.threadId, b.checkpointNs, b.channel, b.version)
  }

  /** The key a write is looked up under: the call's namespace with the write's other fields. */
  function WriteLookup(w: WriteRow, namespace: string): WriteKey {
    WriteKey(namespace, w.threadId, w.checkpointNs, w.checkpointId, w.taskId, w.idx)
  }

  function FindCheckpoint(rows: seq<CheckpointRow>, k: CheckpointKey): Option<nat> {
    FirstWhere(rows, (r: CheckpointRow) => CheckpointKeyOf(r) == k)
  }

  function FindBlob(rows: seq<BlobRow>, k: BlobKey): Option<nat> {
    FirstWhere(rows, (b: BlobRow) => BlobKeyOf(b) == k)
  }

  function FindWrite(rows: seq<WriteRow>, k: WriteKey): Option<nat> {
    FirstWhere(rows, (w: WriteRow) => WriteKeyOf(w) == k)
  }

  predicate UniqueCheckpointKeys(rows: seq<CheckpointRow>) {
    forall i, j :: 0 <= i < j < |rows| ==> CheckpointKeyOf(rows[i]) != CheckpointKeyOf(rows[j])
  }

  predicate UniqueBlobKeys(rows: seq<BlobRow>) {
    forall i, j :: 0 <= i < j < |rows| ==> BlobKeyOf(rows[i]) != BlobKeyOf(rows[j])
  }

  predicate UniqueWriteKeys(rows: seq<WriteRow>) {
    forall i, j :: 0 <= i < j < |rows| ==> WriteKeyOf(rows[i]) != WriteKeyOf(rows[j])
  }

  // ---------------------------------------------------------------------
  // Checkpoints: upsert

  /** The checkpoint table after `putCheckpoint`: the row with the key patched, or a new row appended. */
  function UpsertCheckpoint(rows: seq<CheckpointRow>, k: CheckpointKey, parentCheckpointId: Option<string>,
                            checkpoint: Json, metadata: map<string, Json>, now: int): seq<CheckpointRow> {
    match FindCheckpoint(rows, k)
    case Some(i) =>
      rows[i := rows[i].(checkpoint := checkpoint, metadata := metadata, parentCheckpointId := parentCheckpointId)]
    case None =>
      rows + [CheckpointRow(k.namespace, k.threadId, k.checkpointNs, k.checkpointId, parentCheckpointId, checkpoint, metadata, now)]
  }

  /**
   * Only the row with the key is patched or added: every other row keeps
   * its place and its contents, every key stays where it was, and the key
   * then leads to a row holding the new checkpoint, metadata and parent.
   */
  lemma UpsertCheckpointEffect(rows: seq<CheckpointRow>, k: CheckpointKey, parentCheckpointId: Option<string>,
                               checkpoint: Json, metadata: map<string, Json>, now: int)
    ensures var r := UpsertCheckpoint(rows, k, parentCheckpointId, checkpoint, metadata, now);
      && |r| == |rows| + (if FindCheckpoint(rows, k).Some? then 0 else 1)
      && (forall j :: 0 <= j < |rows| ==> CheckpointKeyOf(r[j]) == CheckpointKeyOf(rows[j]))
      && (forall j :: 0 <= j < |rows| && CheckpointKeyOf(rows[j]) != k ==> r[j] == rows[j])
      && FindCheckpoint(r, k).Some?
      && var row := r[FindCheckpoint(r, k).value];
         row.checkpoint == checkpoint && row.metadata == metadata && row.parentCheckpointId == parentCheckpointId
  {
    var r := UpsertCheckpoint(rows, k, parentCheckpointId, checkpoint, metadata, now);
    var found := FindCheckpoint(rows, k);
    if found.Some? {
      assert forall j :: 0 <= j < |rows| ==> CheckpointKeyOf(r[j]) == CheckpointKeyOf(rows[j]);
      assert FindCheckpoint(r, k) == found by {
        assert forall j :: 0 <= j <= found.value ==> CheckpointKeyOf(r[j]) == CheckpointKeyOf(rows[j]);
      }
    } else {
      assert CheckpointKeyOf(r[|rows|]) == k;
    }
  }

  /** Repeating the same `putCheckpoint` changes nothing, whatever the time of the repeat. */
  lemma UpsertCheckpointIdempotent(rows: seq<CheckpointRow>, k: CheckpointKey, parentCheckpointId: Option<string>,
                                   checkpoint: Json, metadata: map<string, Json>, now: int, later: int)
    ensures var r := UpsertCheckpoint(rows, k, parentCheckpointId, checkpoint, metadata, now);
      UpsertCheckpoint(r, k, parentCheckpointId, checkpoint, metadata, later) == r
  {
    var r := UpsertCheckpoint(rows, k, parentCheckpointId, checkpoint, metadata, now);
    UpsertCheckpointEffect(rows, k, parentCheckpointId, checkpoint, metadata, now);
    var i := FindCheckpoint(r, k).value;
    assert r[i := r[i].(checkpoint := checkpoint, metadata := metadata, parentCheckpointId := parentCheckpointId)] == r;
  }

  /** At most one row per key, before and after. */
  lemma UpsertCheckpointUnique(rows: seq<CheckpointRow>, k: CheckpointKey, parentCheckpointId: Option<string>,
                               checkpoint: Json, metadata: map<string, Json>, now: int)
    requires UniqueCheckpointKeys(rows)
    ensures UniqueCheckpointKeys(UpsertCheckpoint(rows, k, parentCheckpointId, checkpoint, metadata, now))
  {
    var r := UpsertCheckpoint(rows, k, parentCheckpointId, checkpoint, metadata, now);
    UpsertCheckpointEffect(rows, k, parentCheckpointId, checkpoint, metadata, now);
    if FindCheckpoint(rows, k).None? {
      assert CheckpointKeyOf(r[|rows|]) == k;
    }
  }

  // ---------------------------------------------------------------------
  // Blobs: insert when absent

  /** One blob of `putCheckpoint`: inserted, as given, unless its key is found under the call's namespace. */
  function InsertBlob(rows: seq<BlobRow>, b: BlobRow, namespace: string): seq<BlobRow> {
    if FindBlob(rows, BlobLookup(b, namespace)).Some? then rows else rows + [b]
  }

  function InsertBlobs(rows: seq<BlobRow>, bs: seq<BlobRow>, namespace: string): seq<BlobRow> {
    if bs == [] then rows
    else InsertBlob(InsertBlobs(rows, bs[..|bs| - 1], namespace), bs[|bs| - 1], namespace)
  }

  /**
   * First write wins: existing blob rows are never changed, new ones are
   * only appended, and each of them is one of the given blobs.
   */
  lemma {:induction false} InsertBlobsKeepsRows(rows: seq<BlobRow>, bs: seq<BlobRow>, namespace: string)
    ensures var r := InsertBlobs(rows, bs, namespace);
      |rows| <= |r| <= |rows| + |bs| && r[..|rows|] == rows
      && forall j :: |rows| <= j < |r| ==> r[j] in bs
  {
    if bs != [] {
      var init := bs[..|bs| - 1];
      InsertBlobsKeepsRows(rows, init, namespace);
      var r0 := InsertBlobs(rows, init, namespace);
      var r := InsertBlobs(rows, bs, namespace);
      assert forall b :: b in init ==> b in bs;
      if r != r0 {
        assert r == r0 + [bs[|bs| - 1]];
        assert r[..|rows|] == r0[..|rows|];
      }
    }
  }

  /** The blob a key leads to stays the one first stored under it. */
  lemma FirstBlobWins(rows: seq<BlobRow>, bs: seq<BlobRow>, namespace: string, k: BlobKey)
    requires FindBlob(rows, k).Some?
    ensures FindBlob(InsertBlobs(rows, bs, namespace), k) == FindBlob(rows, k)
  {
    var r := InsertBlobs(rows, bs, namespace);
    InsertBlobsKeepsRows(rows, bs, namespace);
    assert r == rows + r[|rows|..];
    FirstWhereExtend(rows, r[|rows|..], (b: BlobRow) => BlobKeyOf(b) == k);
  }

  /** After the call, every given blob stored under the call's namespace can be found by its key. */
  lemma {:induction false} InsertBlobsStores(rows: seq<BlobRow>, bs: seq<BlobRow>, namespace: string)
    ensures forall b :: b in bs && b.namespace == namespace ==>
      FindBlob(InsertBlobs(rows, bs, namespace), BlobKeyOf(b)).Some?
  {
    if bs != [] {
      var init := bs[..|bs| - 1];
      var last := bs[|bs| - 1];
      InsertBlobsStores(rows, init, namespace);
      var r0 := InsertBlobs(rows, init, namespace);
      var r := InsertBlobs(rows, bs, namespace);
      assert r == r0 + r[|r0|..] by {
        InsertBlobsKeepsRows(r0, [last], namespace);
        assert InsertBlobs(r0, [last], namespace) == r by {
          assert [last][..0] == [];
        }
      }
      forall b | b in bs && b.namespace == namespace ensures FindBlob(r, BlobKeyOf(b)).Some? {
        if b in init {
          FirstWhereExtend(r0, r[|r0|..], (x: BlobRow) => BlobKeyOf(x) == BlobKeyOf(b));
        } else if r == r0 {
          assert BlobLookup(last, namespace) == BlobKeyOf(b);
        } else {
          assert BlobKeyOf(r[|r0|]) == BlobKeyOf(b);
        }
      }
    }
  }

  /** Blobs whose keys are all present insert nothing. */
  lemma {:induction false} InsertBlobsPresent(rows: seq<BlobRow>, bs: seq<BlobRow>, namespace: string)
    requires forall b :: b in bs ==> FindBlob(rows, BlobLookup(b, namespace)).Some?
    ensures InsertBlobs(rows, bs, namespace) == rows
  {
    if bs != [] {
      assert forall b :: b in bs[..|bs| - 1] ==> b in bs;
      InsertBlobsPresent(rows, bs[..|bs| - 1], namespace);
      assert bs[|bs| - 1] in bs;
    }
  }

  /** With the blobs stored under the call's namespace, at most one blob row per key, before and after. */
  lemma {:induction false} InsertBlobsUnique(rows: seq<BlobRow>, bs: seq<BlobRow>, namespace: string)
    requires UniqueBlobKeys(rows)
    requires forall b :: b in bs ==> b.namespace == namespace
    ensures UniqueBlobKeys(InsertBlobs(rows, bs, namespace))
  {
    if bs != [] {
      var init := bs[..|bs| - 1];
      var last := bs[|bs| - 1];
      assert forall b :: b in init ==> b in bs;
      InsertBlobsUnique(rows, init, namespace);
      assert last in bs;
      assert BlobLookup(last, namespace) == BlobKeyOf(last);
    }
  }

  /** Storing the same blobs again, under their own namespace, changes nothing. */
  lemma InsertBlobsIdempotent(rows: seq<BlobRow>, bs: seq<BlobRow>, namespace: string)
    requires forall b :: b in bs ==> b.namespace == namespace
    ensures InsertBlobs(InsertBlobs(rows, bs, namespace), bs, namespace) == InsertBlobs(rows, bs, namespace)
  {
    InsertBlobsStores(rows, bs, namespace);
    assert forall b :: b in bs ==> BlobLookup(b, namespace) == BlobKeyOf(b);
    InsertBlobsPresent(InsertBlobs(rows, bs, namespace), bs, namespace);
  }

  // ---------------------------------------------------------------------
  // Writes: upsert, last write wins

  /** One write of `putWrites`: the found row gets the write's channel, type and blob; otherwise the write is inserted as given. */
  function UpsertWrite(rows: seq<WriteRow>, w: WriteRow, namespace: string): seq<WriteRow> {
    match FindWrite(rows, WriteLookup(w, namespace))
    case Some(i) => rows[i := rows[i].(channel := w.channel, writeType := w.writeType, blob := w.blob)]
    case None => rows + [w]
  }

  function UpsertWrites(rows: seq<WriteRow>, ws: seq<WriteRow>, namespace: string): seq<WriteRow> {
    if ws == [] then rows
    else UpsertWrite(UpsertWrites(rows, ws[..|ws| - 1], namespace), ws[|ws| - 1], namespace)
  }

  /** The payload a write leaves in the row it lands in. */
  predicate Holds(row: WriteRow, w: WriteRow) {
    row.channel == w.channel && row.writeType == w.writeType && row.blob == w.blob
  }

  /**
   * One write changes only the row it looks up: keys stay where they were,
   * other rows are untouched, a row is appended only when the key was
   * missing.
   */
  lemma UpsertWriteEffect(rows: seq<WriteRow>, w: WriteRow, namespace: string)
    ensures var r := UpsertWrite(rows, w, namespace);
      && |r| == |rows| + (if FindWrite(rows, WriteLookup(w, namespace)).Some? then 0 else 1)
      && (forall j :: 0 <= j < |rows| ==> WriteKeyOf(r[j]) == WriteKeyOf(rows[j]))
      && (forall j :: 0 <= j < |rows| && WriteKeyOf(rows[j]) != WriteLookup(w, namespace) ==> r[j] == rows[j])
      && (|r| > |rows| ==> r[|rows|] == w)
  {
  }

  /** A write to another key leaves the row a key leads to where it was, with its contents. */
  lemma UpsertWriteOther(rows: seq<WriteRow>, w: WriteRow, namespace: string, k: WriteKey)
    requires WriteLookup(w, namespace) != k && WriteKeyOf(w) != k
    ensures FindWrite(UpsertWrite(rows, w, namespace), k) == FindWrite(rows, k)
    ensures FindWrite(rows, k).Some? ==>
      UpsertWrite(rows, w, namespace)[FindWrite(rows, k).value] == rows[FindWrite(rows, k).value]
  {
    var r := UpsertWrite(rows, w, namespace);
    UpsertWriteEffect(rows, w, namespace);
    var p := (x: WriteRow) => WriteKeyOf(x) == k;
    assert forall j :: 0 <= j < |rows| ==> (p(r[j]) <==> p(rows[j]));
    if |r| > |rows| {
      assert !p(r[|rows|]);
    }
    var a, b := FirstWhere(r, p), FirstWhere(rows, p);
    if a.Some? {
      assert a.value < |rows|;
    }
  }

  /** The write lands in the row its key leads to afterwards. */
  lemma UpsertWriteLands(rows: seq<WriteRow>, w: WriteRow, namespace: string)
    requires w.namespace == namespace
    ensures var r := UpsertWrite(rows, w, namespace);
      FindWrite(r, WriteKeyOf(w)).Some? && Holds(r[FindWrite(r, WriteKeyOf(w)).value], w)
  {
    var r := UpsertWrite(rows, w, namespace);
    var k := WriteKeyOf(w);
    assert WriteLookup(w, namespace) == k;
    UpsertWriteEffect(rows, w, namespace);
    var found := FindWrite(rows, k);
    if found.Some? {
      assert FindWrite(r, k) == found by {
        assert forall j :: 0 <= j <= found.value ==> WriteKeyOf(r[j]) == WriteKeyOf(rows[j]);
      }
    } else {
      assert WriteKeyOf(r[|rows|]) == k;
    }
  }

  /**
   * Last write wins: after a batch of writes, the row a key leads to holds
   * the channel, type and blob of the batch's last write to that key.
   */
  lemma {:induction false} LastWriteWins(rows: seq<WriteRow>, ws: seq<WriteRow>, namespace: string, j: nat)
    requires j < |ws| && ws[j].namespace == namespace
    requires forall l :: j < l < |ws| ==> WriteLookup(ws[l], namespace) != WriteKeyOf(ws[j])
    ensures var r := UpsertWrites(rows, ws, namespace);
      FindWrite(r, WriteKeyOf(ws[j])).Some? && Holds(r[FindWrite(r, WriteKeyOf(ws[j])).value], ws[j])
  {
    var init := ws[..|ws| - 1];
    var last := ws[|ws| - 1];
    var r0 := UpsertWrites(rows, init, namespace);
    if j == |ws| - 1 {
      UpsertWriteLands(r0, last, namespace);
    } else {
      var k := WriteKeyOf(ws[j]);
      assert init[j] == ws[j];
      LastWriteWins(rows, init, namespace, j);
      assert WriteLookup(last, namespace) != k;
      assert k.namespace == namespace;
      UpsertWriteOther(r0, last, namespace, k);
    }
  }

  /** With the writes stored under the call's namespace, at most one row per key, before and after. */
  lemma {:induction false} UpsertWritesUnique(rows: seq<WriteRow>, ws: seq<WriteRow>, namespace: string)
    requires UniqueWriteKeys(rows)
    requires forall w :: w in ws ==> w.namespace == namespace
    ensures UniqueWriteKeys(UpsertWrites(rows, ws, namespace))
  {
    if ws != [] {
      var init := ws[..|ws| - 1];
      var last := ws[|ws| - 1];
      assert forall w :: w in init ==> w in ws;
      UpsertWritesUnique(rows, init, namespace);
      var r0 := UpsertWrites(rows, init, namespace);
      UpsertWriteEffect(r0, last, namespace);
      assert last in ws;
      assert WriteLookup(last, namespace) == WriteKeyOf(last);
    }
  }

  // ---------------------------------------------------------------------
  // The store

  /** The three tables of the checkpointer. */
  class Store {
    var checkpoints: seq<CheckpointRow>
    var blobs: seq<BlobRow>
    var writes: seq<WriteRow>

    /** At most one row per key in each table. */
    ghost predicate Valid()
      reads this
    {
      UniqueCheckpointKeys(checkpoints) && UniqueBlobKeys(blobs) && UniqueWriteKeys(writes)
    }

    constructor ()
      ensures checkpoints == [] && blobs == [] && writes == []
      ensures Valid()
    {
      checkpoints := [];
      blobs := [];
      writes := [];
    }

    /**
     * `putCheckpoint`: upsert the checkpoint by its key, then insert each
     * blob whose key is not found under the call's namespace. The write
     * table is not touched.
     */
    method PutCheckpoint(threadId: string, checkpointNs: string, checkpointId: string,
                         parentCheckpointId: Option<string>, checkpoint: Json, metadata: map<string, Json>,
                         blobRows: seq<BlobRow>, namespace: string, now: int)
      modifies this
      ensures checkpoints == UpsertCheckpoint(old(checkpoints), CheckpointKey(namespace, threadId, checkpointNs, checkpointId),
                                              parentCheckpointId, checkpoint, metadata, now)
      ensures blobs == InsertBlobs(old(blobs), blobRows, namespace)
      ensures writes == old(writes)
      ensures old(Valid()) && (forall b :: b in blobRows ==> b.namespace == namespace) ==> Valid()
    {
      var key := CheckpointKey(namespace, threadId, checkpointNs, checkpointId);
      var existingCheckpoint := FindCheckpoint(checkpoints, key);
      if existingCheckpoint.Some? {
        var i := existingCheckpoint.value;
        checkpoints := checkpoints[i := checkpoints[i].(checkpoint := checkpoint, metadata := metadata,
                                                         parentCheckpointId := parentCheckpointId)];
      } else {
        checkpoints := checkpoints + [CheckpointRow(namespace, threadId, checkpointNs, checkpointId,
                                                    parentCheckpointId, checkpoint, metadata, now)];
      }
      var n := 0;
      while n < |blobRows|
        invariant 0 <= n <= |blobRows|
        invariant blobs == InsertBlobs(old(blobs), blobRows[..n], namespace)
        invariant writes == old(writes)
        invariant checkpoints == UpsertCheckpoint(old(checkpoints), key, parentCheckpointId, checkpoint, metadata, now)
      {
        var blob := blobRows[n];
        assert blobRows[..n + 1][..n] == blobRows[..n];
        var existingBlob := FindBlob(blobs, BlobLookup(blob, namespace));
        if existingBlob.None? {
          blobs := blobs + [blob];
        }
        n := n + 1;
      }
      assert blobRows[..n] == blobRows;
      if old(Valid()) && (forall b :: b in blobRows ==> b.namespace == namespace) {
        UpsertCheckpointUnique(old(checkpoints), key, parentCheckpointId, checkpoint, metadata, now);
        InsertBlobsUnique(old(blobs), blobRows, namespace);
      }
    }

    /** `putWrites`: upsert each write in turn under the call's namespace. */
    method PutWrites(writeRows: seq<WriteRow>, namespace: string)
      modifies this
      ensures writes == UpsertWrites(old(writes), writeRows, namespace)
      ensures checkpoints == old(checkpoints) && blobs == old(blobs)
      ensures old(Valid()) && (forall w :: w in writeRows ==> w.namespace == namespace) ==> Valid()
    {
      var n := 0;
      while n < |writeRows|
        invariant 0 <= n <= |writeRows|
        invariant writes == UpsertWrites(old(writes), writeRows[..n], namespace)
        invariant checkpoints == old(checkpoints) && blobs == old(blobs)
      {
        var write := writeRows[n];
        assert writeRows[..n + 1][..n] == writeRows[..n];
        var existingWrite := FindWrite(writes, WriteLookup(write, namespace));
        if existingWrite.Some? {
          var i := existingWrite.value;
          writes := writes[i := writes[i].(channel := write.channel, writeType := write.writeType, blob := write.blob)];
        } else {
          writes := writes + [write];
        }
        n := n + 1;
      }
      assert writeRows[..n] == writeRows;
      if old(Valid()) && (forall w :: w in writeRows ==> w.namespace == namespace) {
        UpsertWritesUnique(old(writes), writeRows, namespace);
      }
    }
  }
}
