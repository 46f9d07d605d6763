/** The durability worker: appending, syncing and rotating batch by batch. */
module Durability {
  import opened Bytes
  import opened Records
  import opened Segments
  import opened Waiters

  // ---- the batch loop, in place ------------------------------------------

  /** One queued transaction; its payload is None when the changeset does not encode within the limits. */
  datatype Item = Item(txID: u64, payload: Option<bytes>)

  class DurabilityWorker {
    const table: WaiterTable
    const perTx: bool
    const maxSegmentSize: nat
    var seg: SegmentWriter
    ghost var synced: nat   // the last transaction an fsync has covered

    ghost function Appended(): int
      reads this, seg
    {
      seg.startTx - 1 + |seg.payloads|
    }

    ghost predicate Valid()
      reads this, seg, table
    {
      && seg.Valid()
      && WaitersOk(table.View())
      && table.durable <= synced <= Appended()
    }

    constructor (waiters: WaiterTable, writer: SegmentWriter, each: bool, max: nat)
      requires writer.Valid() && WaitersOk(waiters.View()) && waiters.durable <= writer.startTx - 1 + |writer.payloads|
      ensures Valid() && table == waiters && seg == writer && perTx == each && maxSegmentSize == max
      ensures synced == Appended()
    {
      table, seg, perTx, maxSegmentSize := waiters, writer, each, max;
      synced := writer.startTx - 1 + |writer.payloads|;
    }

    /** syncBatchTail. */
    method SyncBatchTail(lastDurable: nat) returns (ok: bool)
      requires Valid() && Appended() == lastDurable
      modifies this`synced, table`durable, table`waiters, table`channels
      ensures Valid()
      ensures ok ==> synced == lastDurable && table.View() == Marked(old(table.View()), lastDurable)
      ensures !ok ==> synced == old(synced) && table.View() == old(table.View())
    {
      ok := *;   // the outcome of fsync
      if ok {
        hide WaitersOk;
        synced := lastDurable;
        MarkMoves(table.View(), lastDurable);
        table.durable := lastDurable;
        table.ReleaseWaitersUpTo(lastDurable);
      }
    }

    /** One item: encode, append, and sync in per-transaction mode. */
    method WriteItem(item: Item) returns (ok: bool)
      requires Valid() && (item.payload.Some? ==> |item.payload.value| <= MAX_PAYLOAD)
      modifies this`synced, seg, table`durable, table`waiters, table`channels
      ensures Valid() && synced >= old(synced)
      ensures ok ==>
        && item.payload.Some? && item.txID == old(Appended()) + 1 == Appended()
        && seg.payloads == old(seg.payloads) + [item.payload.value]
        && table.View() == (if perTx then Marked(old(table.View()), item.txID) else old(table.View()))
        && (perTx ==> synced == item.txID)
      ensures !ok ==> table.View() == old(table.View())
      ensures !ok ==> seg.payloads == old(seg.payloads)
                      || (item.payload.Some? && seg.payloads == old(seg.payloads) + [item.payload.value])
    {
      if item.payload.None? {
        return false;
      }
      hide WaitersOk, SegmentBytes, WriteAt, RecordBytes, OffsetOf;
      var r := seg.Append(Record(item.txID, CHANGESET, 0, item.payload.value));
      if r.Some? {
        return false;
      }
      if perTx {
        ok := SyncBatchTail(item.txID);
      } else {
        ok := true;
      }
    }

    /**
     * processBatch: on success the batch was the next run of transactions, all of it is
     * written and synced, the mark is its last transaction and the waiters it covers
     * are released, in either sync mode. On failure the mark and the releases stop at
     * a prefix of the batch.
     */
    method ProcessBatch(batch: seq<Item>) returns (ok: bool)
      requires Valid() && batch != []
      requires forall i :: 0 <= i < |batch| && batch[i].payload.Some? ==> |batch[i].payload.value| <= MAX_PAYLOAD
      modifies this`seg, this`synced, seg, table`durable, table`waiters, table`channels
      ensures Valid() && (seg == old(seg) || fresh(seg))
      ensures synced >= old(synced) && table.durable >= old(table.durable)
      ensures ok ==>
        && (forall i :: 0 <= i < |batch| ==> batch[i].txID == old(Appended()) + 1 + i && batch[i].payload.Some?)
        && synced == Appended() == batch[|batch| - 1].txID
        && table.View() == Marked(old(table.View()), batch[|batch| - 1].txID)
      ensures !ok ==> exists k :: 0 <= k <= |batch| && table.View() == MarkedBy(old(table.View()), batch[..k])
    {
      hide WaitersOk, Marked, SegmentBytes, WriteAt, RecordBytes, OffsetOf, Fits;
      ghost var was := table.View();
      for i := 0 to |batch|
        invariant Valid() && seg == old(seg) && synced >= old(synced) && table.durable >= old(table.durable)
        invariant Appended() == old(Appended()) + i
        invariant forall k :: 0 <= k < i ==> batch[k].txID == old(Appended()) + 1 + k && batch[k].payload.Some?
        invariant table.View() == if perTx then MarkedBy(was, batch[..i]) else was
        invariant perTx && i > 0 ==> synced == Appended()
      {
        ghost var before := table.View();
        ok := WriteItem(batch[i]);
        if !ok {
          assert batch[..0] == [];
          assert table.View() == MarkedBy(was, batch[..if perTx then i else 0]);
          return false;
        }
        MarkedOnce(was, batch, i);
        MarkGrows(before, batch[i].txID);
      }
      assert batch[..|batch|] == batch;
      var last := batch[|batch| - 1].txID;
      if !perTx {
        ok := SyncBatchTail(last);
        if !ok {
          assert table.View() == MarkedBy(was, batch[..0]);
          return false;
        }
      }
      MarkGrows(was, last);
      if seg.size >= maxSegmentSize && last != MAX_U64 {
        var created: bool := *;   // closing the old segment and creating the next one
        if !created {
          assert table.View() == MarkedBy(was, batch[..|batch|]);
          return false;
        }
        seg := new SegmentWriter.Create(last + 1);
      }
      return true;
    }
  }

  /** The state once every transaction of a prefix has been marked. */
  ghost function MarkedBy(s: Shared, batch: seq<Item>): (r: Shared) {
    if batch == [] then s else Marked(s, batch[|batch| - 1].txID)
  }

  lemma {:induction false} MarkGrows(s: Shared, d: nat)
    ensures Marked(s, d).durable == d
  {
  }

  lemma {:induction false} MarkedOnce(s: Shared, batch: seq<Item>, i: nat)
    requires i < |batch| && (i > 0 ==> batch[i - 1].txID <= batch[i].txID)
    ensures Marked(MarkedBy(s, batch[..i]), batch[i].txID) == MarkedBy(s, batch[..i + 1])
  {
    hide Marked;
    if i > 0 {
      MarkedTwice(s, batch[i - 1].txID, batch[i].txID);
    }
  }
}
