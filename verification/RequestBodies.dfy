/**
The life of request bodies: read once and cached (`GetRequestBody`), replaced
(`OverwriteRequestBody`), dropped when the request is over (`CleanupBodyStorage`), with the global
counters of what is held in memory and on disk.

All storages ever created are kept in one sequence; a context names its storage by position, so
that two contexts naming the same position would share the object.
*/
module RequestBodies {
  import opened Basics
  import opened DiskCache

  datatype Kind = Memory | Disk

  datatype Storage = Storage(kind: Kind, content: Bytes, closed: bool)

  /** `storage` is KeyBodyStorage, `legacy` the older KeyRequestBody cache of plain bytes. */
  datatype Context = Context(storage: Option<nat>, legacy: Option<Bytes>)

  datatype Error = TooLarge | ReadFailed | StorageClosed

  datatype Result = Ok(at: nat) | Err(error: Error)

  /** What reading the connection yields: all of it, or a failure after some of it. */
  datatype Incoming = Incoming(data: Bytes, fails: bool)

  // ---------- sums over the open storages ----------

  function Files(storages: seq<Storage>, kind: Kind): nat {
    if storages == [] then 0
    else Files(storages[1..], kind) + if storages[0].kind == kind && !storages[0].closed then 1 else 0
  }

  function Usage(storages: seq<Storage>, kind: Kind): nat {
    if storages == [] then 0
    else Usage(storages[1..], kind) + if storages[0].kind == kind
      && !storages[0].closed then |storages[0].content| else 0
  }

  lemma {:induction false} SumsAppend(storages: seq<Storage>, s: Storage, kind: Kind)
    ensures Files(storages + [s], kind) == Files(storages, kind) + if s.kind == kind && !s.closed then 1 else 0
    ensures Usage(storages + [s], kind) == Usage(storages, kind) + if s.kind == kind
      && !s.closed then |s.content| else 0
  {
    if storages == [] {
      assert storages + [s] == [s];
    } else {
      assert (storages + [s])[1..] == storages[1..] + [s];
      SumsAppend(storages[1..], s, kind);
    }
  }

  lemma {:induction false} SumsClose(storages: seq<Storage>, i: nat, kind: Kind)
    requires i < |storages| && !storages[i].closed
    ensures var closed := storages[i := storages[i].(closed := true)];
      && Files(closed, kind) == Files(storages, kind) - (if storages[i].kind == kind then 1 else 0)
      && Usage(closed, kind) == Usage(storages, kind) - (if storages[i].kind == kind then |storages[i].content| else 0)
  {
    var closed := storages[i := storages[i].(closed := true)];
    if i == 0 {
      assert closed[1..] == storages[1..];
    } else {
      assert closed[1..] == storages[1..][i - 1 := storages[i].(closed := true)];
      SumsClose(storages[1..], i - 1, kind);
    }
  }

  lemma {:induction false} SumsZero(storages: seq<Storage>, kind: Kind)
    requires forall i | 0 <= i < |storages| :: storages[i].closed
    ensures Files(storages, kind) == 0 && Usage(storages, kind) == 0
  {
    if storages != [] { SumsZero(storages[1..], kind); }
  }

  // ---------- ownership ----------

  ghost predicate Owns(contexts: map<nat, Context>, id: nat, i: nat) {
    id in contexts && contexts[id].storage == Some(i)
  }

  /** A context names an existing storage, no two name the same, and every open storage is named:
      nothing is shared and nothing leaks. */
  ghost predicate Owned(storages: seq<Storage>, contexts: map<nat, Context>) {
    && (forall id: nat, i: nat | Owns(contexts, id, i) :: i < |storages|)
    && (forall id: nat, other: nat, i: nat | Owns(contexts, id, i) && Owns(contexts, other, i) :: id == other)
    && (forall i: nat | i < |storages| && !storages[i].closed :: exists id: nat :: Owns(contexts, id, i))
  }

  lemma HandedOver(storages: seq<Storage>, contexts: map<nat, Context>, id: nat, s: Storage, legacy: Option<Bytes>)
    requires Owned(storages, contexts) && id in contexts
    requires forall i: nat | Owns(contexts, id, i) && i < |storages| :: storages[i].closed
    ensures Owned(storages + [s], contexts[id := Context(Some(|storages|), legacy)])
  {
    var storages', contexts' := storages + [s], contexts[id := Context(Some(|storages|), legacy)];
    assert forall o: nat, i: nat :: Owns(contexts', o, i) ==> if o == id then i == |storages| else Owns(contexts, o, i);
    forall i: nat | i < |storages'| && !storages'[i].closed ensures exists o: nat :: Owns(contexts', o, i) {
      if i == |storages| {
        assert Owns(contexts', id, i);
      } else {
        var o: nat :| Owns(contexts, o, i);
        assert Owns(contexts', o, i);
      }
    }
  }

  lemma Dropped(storages: seq<Storage>, contexts: map<nat, Context>, id: nat)
    requires Owned(storages, contexts) && id in contexts
    requires forall i: nat | Owns(contexts, id, i) && i < |storages| :: storages[i].closed
    ensures Owned(storages, contexts[id := contexts[id].(storage := None)])
  {
    var contexts' := contexts[id := contexts[id].(storage := None)];
    assert forall o: nat, i: nat :: Owns(contexts', o, i) ==> o != id && Owns(contexts, o, i);
    forall i: nat | i < |storages| && !storages[i].closed ensures exists o: nat :: Owns(contexts', o, i) {
      var o: nat :| Owns(contexts, o, i);
      assert Owns(contexts', o, i);
    }
  }

  lemma ClosedOwned(storages: seq<Storage>, contexts: map<nat, Context>, i: nat)
    requires Owned(storages, contexts) && i < |storages|
    ensures Owned(storages[i := storages[i].(closed := true)], contexts)
  {
  }

  // ---------- the running program ----------

  class BodyCache {
    const stats: DiskCacheStats
    const enabled: bool
    const threshold: int
    const maxSize: int
    var storages: seq<Storage>
    var contexts: map<nat, Context>

    /** The counters say what is open. */
    ghost predicate Counted()
      reads this, stats
    {
      && stats.activeDiskFiles == Files(storages, Disk) && stats.currentDiskUsageBytes == Usage(storages, Disk)
      && stats.activeMemoryBuffers == Files(storages, Memory)
        && stats.currentMemoryUsageBytes == Usage(storages, Memory)
    }

    ghost predicate Valid()
      reads this, stats
    {
      Counted() && Owned(storages, contexts)
    }

    constructor (enabled: bool, threshold: int, maxSize: int)
      ensures Valid() && fresh(stats) && storages == [] && contexts == map[]
      ensures this.enabled == enabled && this.threshold == threshold && this.maxSize == maxSize
    {
      stats := new DiskCacheStats();
      this.enabled, this.threshold, this.maxSize := enabled, threshold, maxSize;
      storages, contexts := [], map[];
    }

    predicate IsDiskCacheAvailable(requestSize: int)
      reads this, stats
    {
      enabled && stats.currentDiskUsageBytes + requestSize <= maxSize
    }

    method Add(kind: Kind, data: Bytes) returns (at: nat)
      requires Counted()
      modifies this`storages, stats`activeDiskFiles, stats`currentDiskUsageBytes, stats`activeMemoryBuffers,
               stats`currentMemoryUsageBytes
      ensures Counted() && at == |old(storages)| && storages == old(storages) + [Storage(kind, data, false)]
      ensures stats.currentDiskUsageBytes == old(stats.currentDiskUsageBytes) + if kind == Disk then |data| else 0
    {
      SumsAppend(storages, Storage(kind, data, false), Disk);
      SumsAppend(storages, Storage(kind, data, false), Memory);
      at := |storages|;
      storages := storages + [Storage(kind, data, false)];
      if kind == Disk {
        stats.IncrementDiskFiles(|data|);
      } else {
        stats.IncrementMemoryBuffers(|data|);
      }
    }

    /** Closing an open storage takes it off the counters; closing it again changes nothing. */
    method Close(i: nat)
      requires Counted() && i < |storages|
      modifies this`storages, stats`activeDiskFiles, stats`currentDiskUsageBytes, stats`activeMemoryBuffers,
               stats`currentMemoryUsageBytes
      ensures Counted() && storages == old(storages)[i := old(storages)[i].(closed := true)]
      ensures old(storages)[i].closed ==>
        stats.activeDiskFiles == old(stats.activeDiskFiles)
          && stats.currentDiskUsageBytes == old(stats.currentDiskUsageBytes)
        && stats.activeMemoryBuffers == old(stats.activeMemoryBuffers)
          && stats.currentMemoryUsageBytes == old(stats.currentMemoryUsageBytes)
    {
      var s := storages[i];
      if s.closed {
        assert storages == storages[i := s.(closed := true)];
        return;
      }
      SumsClose(storages, i, Disk);
      SumsClose(storages, i, Memory);
      storages := storages[i := s.(closed := true)];
      if s.kind == Disk {
        stats.DecrementDiskFiles(|s.content|);
      } else {
        stats.DecrementMemoryBuffers(|s.content|);
      }
    }

    /** A body of known size goes to disk if that is enabled, large enough, within the limit and
        works; otherwise to memory. It never fails. */
    method CreateBodyStorage(data: Bytes, diskWorks: bool) returns (at: nat)
      requires Counted()
      modifies this`storages, stats`activeDiskFiles, stats`currentDiskUsageBytes, stats`activeMemoryBuffers,
               stats`currentMemoryUsageBytes
      ensures Counted() && at == |old(storages)|
      ensures var kind := if enabled && |data| >= threshold && old(stats.currentDiskUsageBytes) + |data| <= maxSize
        && diskWorks then Disk else Memory;
        storages == old(storages) + [Storage(kind, data, false)]
      ensures stats.currentDiskUsageBytes <= maxSize || stats.currentDiskUsageBytes == old(stats.currentDiskUsageBytes)
    {
      if enabled && |data| >= threshold && IsDiskCacheAvailable(|data|) {
        if diskWorks {
          at := Add(Disk, data);
          return;
        }
      }
      at := Add(Memory, data);
    }

    /** A stream is stored whole, or not at all: it is refused when it exceeds `maxBytes`, and a
        failure of the connection or of the disk leaves nothing behind. Disk usage stays within the
        limit as long as streams do not exceed their declared length. */
    method CreateFromReader(body: Incoming, contentLength: int, maxBytes: nat, diskWorks: bool) returns (r: Result)
      requires Counted()
      modifies this`storages, stats
      ensures Counted()
      ensures var usage := old(stats.currentDiskUsageBytes);
        var streamed := enabled && contentLength > 0 && contentLength >= threshold && usage + contentLength <= maxSize;
        && (r == Err(TooLarge) <==> |body.data| > maxBytes && (streamed ==> diskWorks))
        && (r == Err(ReadFailed) <==> (streamed && !diskWorks) || (|body.data| <= maxBytes && body.fails))
        && (r.Ok? ==>
              var size := |body.data|;
              var onDisk := streamed || (enabled && size >= threshold && usage + size <= maxSize && diskWorks);
              && storages == old(storages) + [Storage(if onDisk then Disk else Memory, body.data, false)]
              && stats.diskCacheHits == old(stats.diskCacheHits) + (if onDisk then 1 else 0)
              && stats.memoryCacheHits == old(stats.memoryCacheHits) + (if onDisk then 0 else 1))
      ensures r.Ok? ==> r.at == |old(storages)| && |body.data| <= maxBytes && !body.fails
      ensures r.Err? ==> storages == old(storages) && r.error in {TooLarge, ReadFailed}
      ensures r.Err? ==> stats.diskCacheHits == old(stats.diskCacheHits)
      ensures r.Err? ==> stats.memoryCacheHits == old(stats.memoryCacheHits)
      ensures |body.data| <= contentLength || contentLength <= 0 ==>
        stats.currentDiskUsageBytes <= maxSize || stats.currentDiskUsageBytes == old(stats.currentDiskUsageBytes)
    {
      if enabled && contentLength > 0 && contentLength >= threshold && IsDiskCacheAvailable(contentLength) {
        // the file copy stops at the limit, at a failure, or at the end
        if !diskWorks || (|body.data| <= maxBytes && body.fails) {
          return Err(ReadFailed);
        }
        if |body.data| > maxBytes {
          return Err(TooLarge);
        }
        var at := Add(Disk, body.data);
        stats.IncrementDiskCacheHits();
        return Ok(at);
      }
      if |body.data| <= maxBytes && body.fails {
        return Err(ReadFailed);
      }
      if |body.data| > maxBytes {
        return Err(TooLarge);
      }
      var at := CreateBodyStorage(body.data, diskWorks);
      if storages[at].kind == Memory {
        stats.IncrementMemoryCacheHits();
      } else {
        stats.IncrementDiskCacheHits();
      }
      return Ok(at);
    }

    method Begin(id: nat)
      requires Valid() && id !in contexts
      modifies this`contexts
      ensures Valid() && contexts == old(contexts)[id := Context(None, None)]
    {
      contexts := contexts[id := Context(None, None)];
      assert forall o: nat, i: nat :: Owns(contexts, o, i) ==> Owns(old(contexts), o, i);
      forall i: nat | i < |storages| && !storages[i].closed ensures exists o: nat :: Owns(contexts, o, i) {
        var o: nat :| Owns(old(contexts), o, i);
        assert Owns(contexts, o, i);
      }
    }

    /** The body of a request: the cached storage if there is one, else the legacy bytes, else the
        connection. What is created is cached, so the connection is read once; a failure leaves the
        counters and the context as they were. */
    method GetRequestBody(id: nat, body: Incoming, contentLength: int, maxBytes: nat, diskWorks: bool)
      returns (r: Result)
      requires Valid() && id in contexts
      modifies this, stats
      ensures Valid()
      ensures r.Err? ==> storages == old(storages) && contexts == old(contexts)
      ensures r.Ok? ==> r.at < |storages| && !storages[r.at].closed
      ensures old(contexts)[id].storage.Some? ==> storages == old(storages) && contexts == old(contexts)
      ensures forall i: nat | Owns(old(contexts), id, i) && i < |old(storages)| ::
        r == if old(storages)[i].closed then Err(StorageClosed) else Ok(i)
      ensures var c := old(contexts)[id];
        c.storage.None? && r.Ok? ==>
          && contexts == old(contexts)[id := c.(storage := Some(r.at))]
          && r.at == |old(storages)| && |storages| == r.at + 1 && storages[..r.at] == old(storages)
          && storages[r.at].content == (if c.legacy.Some? then c.legacy.value else body.data)
          && (c.legacy.None? ==> |body.data| <= maxBytes)
      ensures var c := old(contexts)[id]; var usage := old(stats.currentDiskUsageBytes);
        c.storage.None? && c.legacy.Some? ==>
          && r.Ok?
          && var size := |c.legacy.value|;
             storages[r.at].kind
               == if enabled && size >= threshold && usage + size <= maxSize && diskWorks then Disk else Memory
      ensures var c := old(contexts)[id]; var usage := old(stats.currentDiskUsageBytes);
        var streamed := enabled && contentLength > 0 && contentLength >= threshold && usage + contentLength <= maxSize;
        c.storage.None? && c.legacy.None? ==>
          && (r == Err(TooLarge) <==> |body.data| > maxBytes && (streamed ==> diskWorks))
          && (r == Err(ReadFailed) <==> (streamed && !diskWorks) || (|body.data| <= maxBytes && body.fails))
          && r != Err(StorageClosed)
    {
      var c := contexts[id];
      assert c.storage.Some? ==> Owns(contexts, id, c.storage.value);
      if c.storage.Some? {
        if storages[c.storage.value].closed {
          return Err(StorageClosed);
        }
        return Ok(c.storage.value);
      }
      if c.legacy.Some? {
        var at := CreateBodyStorage(c.legacy.value, diskWorks);
        HandedOver(old(storages), contexts, id, storages[at], c.legacy);
        contexts := contexts[id := c.(storage := Some(at))];
        return Ok(at);
      }
      r := CreateFromReader(body, contentLength, maxBytes, diskWorks);
      if r.Ok? {
        HandedOver(old(storages), contexts, id, storages[r.at], c.legacy);
        contexts := contexts[id := c.(storage := Some(r.at))];
      }
    }

    /** The new body takes the place of the old one, which is closed; other requests are not touched. */
    method OverwriteRequestBody(id: nat, body: Bytes, diskWorks: bool)
      requires Valid() && id in contexts
      modifies this, stats
      ensures Valid()
      ensures contexts == old(contexts)[id := Context(Some(|old(storages)|), None)]
      ensures |storages| == |old(storages)| + 1
      ensures var usage := old(stats.currentDiskUsageBytes);
        storages[|old(storages)|]
          == Storage(if enabled && |body| >= threshold && usage + |body| <= maxSize && diskWorks then Disk else Memory,
                     body, false)
      ensures forall i: nat | i < |old(storages)| ::
        storages[i] == if Owns(old(contexts), id, i) then old(storages)[i].(closed := true) else old(storages)[i]
    {
      var at := CreateBodyStorage(body, diskWorks);
      var c := contexts[id];
      assert c.storage.Some? ==> Owns(contexts, id, c.storage.value);
      ghost var kept := old(storages);
      if c.storage.Some? {
        ClosedOwned(old(storages), contexts, c.storage.value);
        kept := kept[c.storage.value := kept[c.storage.value].(closed := true)];
        Close(c.storage.value);
      }
      assert storages == kept + [storages[at]];
      HandedOver(kept, contexts, id, storages[at], None);
      contexts := contexts[id := Context(Some(at), None)];
    }

    /** After cleanup the request owns nothing and contributes nothing. */
    method CleanupBodyStorage(id: nat)
      requires Valid() && id in contexts
      modifies this, stats
      ensures Valid()
      ensures contexts == old(contexts)[id := old(contexts)[id].(storage := None)]
      ensures |storages| == |old(storages)| && forall i: nat | i < |storages| ::
        storages[i] == if Owns(old(contexts), id, i) then old(storages)[i].(closed := true) else old(storages)[i]
    {
      var c := contexts[id];
      assert c.storage.Some? ==> Owns(contexts, id, c.storage.value);
      if c.storage.Some? {
        ClosedOwned(storages, contexts, c.storage.value);
        Close(c.storage.value);
        Dropped(storages, contexts, id);
        contexts := contexts[id := c.(storage := None)];
      } else {
        assert contexts == contexts[id := c.(storage := None)];
      }
    }

    /** Anybody who holds a storage may close it, any number of times. */
    method CloseStorage(i: nat)
      requires Valid() && i < |storages|
      modifies this, stats
      ensures Valid() && contexts == old(contexts)
      ensures storages == old(storages)[i := old(storages)[i].(closed := true)]
    {
      ClosedOwned(storages, contexts, i);
      Close(i);
    }

    /** Once every request was cleaned up, all four counters are zero. */
    lemma NothingLeft()
      requires Valid() && forall id | id in contexts :: contexts[id].storage == None
      ensures stats.activeDiskFiles == stats.currentDiskUsageBytes == stats.activeMemoryBuffers
        == stats.currentMemoryUsageBytes == 0
    {
      forall i: nat | i < |storages| ensures storages[i].closed {
        assert forall id: nat :: !Owns(contexts, id, i);
      }
      SumsZero(storages, Disk);
      SumsZero(storages, Memory);
    }
  }
}
