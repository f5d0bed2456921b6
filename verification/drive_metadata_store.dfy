/** The in-memory side of DriveMetadataStore: which origins sync incrementally,
    which are disabled, the reverse lookup from an origin's root directory id
    back to the origin, the per-file metadata of every origin, the largest
    change stamp and the database status. Every change is also handed to
    leveldb as a write batch; the batches are kept here as an append-only log. */
module DriveMetadataStore {
  import opened Wrappers
  import opened DriveMetadataKeys

  datatype DriveMetadata = DriveMetadata(
    resourceId: ResourceId,
    md5Checksum: string,
    conflicted: bool,
    toBeFetched: bool)

  datatype FileSystemUrl = FileSystemUrl(origin: Origin, path: FilePath)

  type PathToMetadata = map<FilePath, DriveMetadata>
  type MetadataMap = map<Origin, PathToMetadata>
  type ResourceIdByOrigin = map<Origin, ResourceId>
  type OriginByResourceId = map<ResourceId, Origin>

  /** One leveldb write operation. Metadata values stay structured: their
      protocol-buffer serialisation is not part of this model. */
  datatype WriteOp =
    | Put(key: string, value: string)
    | PutMetadata(key: string, metadata: DriveMetadata)
    | Delete(key: string)

  type WriteBatch = seq<WriteOp>

  /** How a callback is answered: posted at once with a status, or run with the
      status of the write batch once leveldb has applied it. */
  datatype Reply = Immediate(status: SyncStatusCode) | AfterWrite

  /** What the file thread read from an existing database. */
  datatype DBContents = DBContents(
    largestChangestamp: int,
    metadataMap: MetadataMap,
    syncRootDirectoryResourceId: ResourceId,
    incrementalSyncOrigins: ResourceIdByOrigin,
    disabledOrigins: ResourceIdByOrigin)

  function FileSystemUrlToMetadataKey(url: FileSystemUrl): string
  {
    OriginAndPathToMetadataKey(url.origin, url.path)
  }

  function MetadataDeletion(origin: Origin, path: FilePath): WriteOp
  {
    Delete(OriginAndPathToMetadataKey(origin, path))
  }

  predicate Injective(m: ResourceIdByOrigin)
  {
    forall a, b :: a in m && b in m && m[a] == m[b] ==> a == b
  }

  /** Tables in which no origin is both incremental and disabled and no two
      origins share a root directory id: the tables a reverse map can serve. */
  predicate DistinctResourceIds(incremental: ResourceIdByOrigin, disabled: ResourceIdByOrigin)
  {
    && incremental.Keys !! disabled.Keys
    && Injective(incremental)
    && Injective(disabled)
    && (forall a, b :: a in incremental && b in disabled ==> incremental[a] != disabled[b])
  }

  /** InsertReverseMap: every resource id of `forward` is added to `backward`,
      but an id already present keeps its origin (std::map::insert never
      overwrites). Which of two origins sharing an id wins depends on the
      iteration order, which the model leaves open. */
  method InsertReverseMap(forward: ResourceIdByOrigin, backward: OriginByResourceId)
    returns (r: OriginByResourceId)
    ensures forall o :: o in forward ==> forward[o] in r
    ensures forall rid :: rid in backward ==> rid in r && r[rid] == backward[rid]
    ensures forall rid :: rid in r && rid !in backward ==> r[rid] in forward && forward[r[rid]] == rid
  {
    r := backward;
    var rest := forward.Keys;
    while rest != {}
      invariant rest <= forward.Keys
      invariant forall o :: o in forward && o !in rest ==> forward[o] in r
      invariant forall rid :: rid in backward ==> rid in r && r[rid] == backward[rid]
      invariant forall rid :: rid in r && rid !in backward ==> r[rid] in forward && forward[r[rid]] == rid
      decreases |rest|
    {
      var o :| o in rest;
      if forward[o] !in r {
        r := r[forward[o] := o];
      }
      rest := rest - {o};
    }
  }

  /** AppendMetadataDeletionToBatch: one Delete per file the origin has
      metadata for, appended after what the batch already holds. */
  method AppendMetadataDeletionToBatch(metadataMap: MetadataMap, origin: Origin, batch: WriteBatch)
    returns (r: WriteBatch)
    ensures origin !in metadataMap ==> r == batch
    ensures origin in metadataMap ==>
      && |r| == |batch| + |metadataMap[origin]|
      && r[..|batch|] == batch
      && (forall p :: p in metadataMap[origin] ==> MetadataDeletion(origin, p) in r[|batch|..])
      && (forall k :: |batch| <= k < |r| ==> exists p :: p in metadataMap[origin] && r[k] == MetadataDeletion(origin, p))
  {
    r := batch;
    if origin !in metadataMap {
      return;
    }
    var paths := metadataMap[origin];
    var rest := paths.Keys;
    while rest != {}
      invariant rest <= paths.Keys
      invariant |r| == |batch| + |paths| - |rest|
      invariant r[..|batch|] == batch
      invariant forall p :: p in paths && p !in rest ==> MetadataDeletion(origin, p) in r[|batch|..]
      invariant forall k :: |batch| <= k < |r| ==> exists p :: p in paths && r[k] == MetadataDeletion(origin, p)
      decreases |rest|
    {
      var p :| p in rest;
      ghost var before := r;
      r := r + [MetadataDeletion(origin, p)];
      assert r[|batch|..] == before[|batch|..] + [MetadataDeletion(origin, p)];
      rest := rest - {p};
    }
  }

  /** AddOriginsToVector: the origins of `m`, each once, after `origins`. */
  method AddOriginsToVector(origins: seq<Origin>, m: ResourceIdByOrigin) returns (r: seq<Origin>)
    ensures |r| == |origins| + |m|
    ensures r[..|origins|] == origins
    ensures forall o :: o in m ==> o in r[|origins|..]
    ensures forall k :: |origins| <= k < |r| ==> r[k] in m
    ensures forall i, j :: |origins| <= i < j < |r| ==> r[i] != r[j]
  {
    r := origins;
    var rest := m.Keys;
    while rest != {}
      invariant rest <= m.Keys
      invariant |r| == |origins| + |m| - |rest|
      invariant r[..|origins|] == origins
      invariant forall o :: o in m && o !in rest ==> o in r[|origins|..]
      invariant forall k :: |origins| <= k < |r| ==> r[k] in m && r[k] !in rest
      invariant forall i, j :: |origins| <= i < j < |r| ==> r[i] != r[j]
      decreases |rest|
    {
      var o :| o in rest;
      ghost var before := r;
      r := r + [o];
      assert r[|origins|..] == before[|origins|..] + [o];
      rest := rest - {o};
    }
  }

  /** UpdateResourceIdMap: when `origin` is in `m`, its id becomes `rid`, the
      old id leaves the reverse map and `rid` is added to it without
      overwriting; otherwise nothing changes and the answer is false. */
  function UpdateResourceIdMap(m: ResourceIdByOrigin, reverse: OriginByResourceId, origin: Origin, rid: ResourceId)
    : (r: (bool, ResourceIdByOrigin, OriginByResourceId))
    ensures r.0 <==> origin in m
    ensures !r.0 ==> r.1 == m && r.2 == reverse
    ensures r.0 ==> r.1 == m[origin := rid] && r.1.Keys == m.Keys
    ensures r.0 ==> rid in r.2 && (rid !in reverse || reverse[rid] == origin || rid == m[origin] ==> r.2[rid] == origin)
    ensures r.0 ==> forall id :: id != m[origin] && id != rid ==> (id in r.2 <==> id in reverse) && (id in reverse ==> r.2[id] == reverse[id])
    ensures r.0 && m[origin] != rid ==> m[origin] !in r.2
    ensures r.0 && rid in reverse && reverse[rid] != origin && rid != m[origin] ==> r.2[rid] == reverse[rid]
  {
    if origin !in m then (false, m, reverse)
    else
      var erased := reverse - {m[origin]};
      (true, m[origin := rid], if rid in erased then erased else erased[rid := origin])
  }

  class MetadataStore {
    var dbStatus: SyncStatusCode
    var largestChangestamp: int
    var syncRootDirectoryResourceId: ResourceId
    var incrementalSyncOrigins: ResourceIdByOrigin
    var disabledOrigins: ResourceIdByOrigin
    var originByResourceId: OriginByResourceId
    var metadataMap: MetadataMap
    /** Write batches handed to leveldb, oldest first. */
    var writes: seq<WriteBatch>

    constructor ()
      ensures dbStatus == StatusUnknown && largestChangestamp == 0
      ensures syncRootDirectoryResourceId == ""
      ensures incrementalSyncOrigins == map[] && disabledOrigins == map[]
      ensures originByResourceId == map[] && metadataMap == map[]
      ensures writes == []
      ensures ReverseConsistent()
    {
      dbStatus := StatusUnknown;
      largestChangestamp := 0;
      syncRootDirectoryResourceId := "";
      incrementalSyncOrigins := map[];
      disabledOrigins := map[];
      originByResourceId := map[];
      metadataMap := map[];
      writes := [];
    }

    /** No origin is in both tables, and the root directory id of every known
        origin leads back to it through the reverse map. The reverse map may
        hold more (stale) ids than the tables. */
    predicate ReverseConsistent()
      reads this
    {
      && incrementalSyncOrigins.Keys !! disabledOrigins.Keys
      && (forall o :: o in incrementalSyncOrigins ==>
            incrementalSyncOrigins[o] in originByResourceId && originByResourceId[incrementalSyncOrigins[o]] == o)
      && (forall o :: o in disabledOrigins ==>
            disabledOrigins[o] in originByResourceId && originByResourceId[disabledOrigins[o]] == o)
    }

    /** No entry is both conflicted and waiting to be fetched. */
    predicate EntriesWellFormed()
      reads this
    {
      forall o, p :: o in metadataMap && p in metadataMap[o] ==>
        !(metadataMap[o][p].conflicted && metadataMap[o][p].toBeFetched)
    }

    predicate IsIncrementalSyncOrigin(origin: Origin)
      reads this
    {
      origin in incrementalSyncOrigins
    }

    predicate IsOriginDisabled(origin: Origin)
      reads this
    {
      origin in disabledOrigins
    }

    predicate IsKnownOrigin(origin: Origin)
      reads this
    {
      IsIncrementalSyncOrigin(origin) || IsOriginDisabled(origin)
    }

    /** DidInitialize: adopt the status; on success take the tables read from
        the database and rebuild the reverse map from them, incremental
        origins first, without overwriting. */
    method DidInitialize(contents: DBContents, status: SyncStatusCode)
      modifies this
      ensures dbStatus == status && writes == old(writes)
      ensures status != StatusOk ==>
        && largestChangestamp == old(largestChangestamp)
        && syncRootDirectoryResourceId == old(syncRootDirectoryResourceId)
        && incrementalSyncOrigins == old(incrementalSyncOrigins)
        && disabledOrigins == old(disabledOrigins)
        && originByResourceId == old(originByResourceId)
        && metadataMap == old(metadataMap)
      ensures status == StatusOk ==>
        && largestChangestamp == contents.largestChangestamp
        && syncRootDirectoryResourceId == contents.syncRootDirectoryResourceId
        && incrementalSyncOrigins == contents.incrementalSyncOrigins
        && disabledOrigins == contents.disabledOrigins
        && metadataMap == contents.metadataMap
        && (forall rid :: rid in originByResourceId ==>
              || (originByResourceId[rid] in incrementalSyncOrigins && incrementalSyncOrigins[originByResourceId[rid]] == rid)
              || (originByResourceId[rid] in disabledOrigins && disabledOrigins[originByResourceId[rid]] == rid))
      // Every loaded id is a key, and an id an incremental origin holds
      // resolves to an incremental origin: those are inserted first.
      ensures status == StatusOk ==>
        && (forall o :: o in incrementalSyncOrigins ==> incrementalSyncOrigins[o] in originByResourceId)
        && (forall o :: o in disabledOrigins ==> disabledOrigins[o] in originByResourceId)
        && (forall o :: o in incrementalSyncOrigins ==>
              var owner := originByResourceId[incrementalSyncOrigins[o]];
              owner in incrementalSyncOrigins && incrementalSyncOrigins[owner] == incrementalSyncOrigins[o])
      ensures status == StatusOk && DistinctResourceIds(contents.incrementalSyncOrigins, contents.disabledOrigins) ==>
        ReverseConsistent()
    {
      dbStatus := status;
      if status != StatusOk {
        return;
      }
      largestChangestamp := contents.largestChangestamp;
      metadataMap := contents.metadataMap;
      syncRootDirectoryResourceId := contents.syncRootDirectoryResourceId;
      incrementalSyncOrigins := contents.incrementalSyncOrigins;
      disabledOrigins := contents.disabledOrigins;
      var reverse := InsertReverseMap(incrementalSyncOrigins, map[]);
      reverse := InsertReverseMap(disabledOrigins, reverse);
      originByResourceId := reverse;
    }

    method SetLargestChangeStamp(changestamp: int)
      requires dbStatus == StatusOk
      requires Int64Min <= changestamp <= Int64Max
      modifies this
      ensures largestChangestamp == changestamp
      ensures writes == old(writes) + [[Put(ChangeStampKey, Int64ToString(changestamp))]]
      ensures dbStatus == old(dbStatus) && syncRootDirectoryResourceId == old(syncRootDirectoryResourceId)
      ensures incrementalSyncOrigins == old(incrementalSyncOrigins) && disabledOrigins == old(disabledOrigins)
      ensures originByResourceId == old(originByResourceId) && metadataMap == old(metadataMap)
    {
      largestChangestamp := changestamp;
      writes := writes + [[Put(ChangeStampKey, Int64ToString(changestamp))]];
    }

    function GetLargestChangeStamp(): int
      requires dbStatus == StatusOk
      reads this
    {
      largestChangestamp
    }

    /** ReadEntry: the metadata of `url`, or NOT_FOUND when either its origin
        or its path is missing. */
    function ReadEntry(url: FileSystemUrl): (r: (SyncStatusCode, Option<DriveMetadata>))
      reads this
      ensures r.0 == StatusOk || r.0 == DatabaseErrorNotFound
      ensures r.0 == StatusOk <==> url.origin in metadataMap && url.path in metadataMap[url.origin]
      ensures r.1.Some? <==> r.0 == StatusOk
      ensures r.1.Some? ==> r.1.value == metadataMap[url.origin][url.path]
    {
      if url.origin !in metadataMap then (DatabaseErrorNotFound, None)
      else if url.path !in metadataMap[url.origin] then (DatabaseErrorNotFound, None)
      else (StatusOk, Some(metadataMap[url.origin][url.path]))
    }

    /** UpdateEntry: inserts or overwrites the entry of `url`, so that reading
        it back gives `metadata` and every other entry reads as before. */
    method UpdateEntry(url: FileSystemUrl, metadata: DriveMetadata)
      requires dbStatus == StatusOk
      requires !(metadata.conflicted && metadata.toBeFetched)
      modifies this
      ensures ReadEntry(url) == (StatusOk, Some(metadata))
      ensures forall u :: u != url ==> ReadEntry(u) == old(ReadEntry(u))
      ensures metadataMap.Keys == old(metadataMap.Keys) + {url.origin}
      ensures forall o :: o in old(metadataMap) && o != url.origin ==> metadataMap[o] == old(metadataMap)[o]
      ensures metadataMap[url.origin].Keys == (if url.origin in old(metadataMap) then old(metadataMap)[url.origin].Keys else {}) + {url.path}
      ensures old(EntriesWellFormed()) ==> EntriesWellFormed()
      ensures writes == old(writes) + [[PutMetadata(FileSystemUrlToMetadataKey(url), metadata)]]
      ensures dbStatus == old(dbStatus) && largestChangestamp == old(largestChangestamp)
      ensures syncRootDirectoryResourceId == old(syncRootDirectoryResourceId)
      ensures incrementalSyncOrigins == old(incrementalSyncOrigins) && disabledOrigins == old(disabledOrigins)
      ensures originByResourceId == old(originByResourceId)
    {
      var paths := if url.origin in metadataMap then metadataMap[url.origin] else map[];
      metadataMap := metadataMap[url.origin := paths[url.path := metadata]];
      writes := writes + [[PutMetadata(FileSystemUrlToMetadataKey(url), metadata)]];
    }

    /** DeleteEntry: NOT_FOUND at once when the origin or the path is missing;
        otherwise only that path is erased (the origin keeps its possibly empty
        table) and the callback waits for the Delete to be written. */
    method DeleteEntry(url: FileSystemUrl) returns (reply: Reply)
      modifies this
      ensures old(ReadEntry(url)).0 == DatabaseErrorNotFound ==>
        reply == Immediate(DatabaseErrorNotFound) && metadataMap == old(metadataMap) && writes == old(writes)
      ensures old(ReadEntry(url)).0 == StatusOk ==>
        && reply == AfterWrite
        && ReadEntry(url).0 == DatabaseErrorNotFound
        && metadataMap.Keys == old(metadataMap.Keys)
        && metadataMap[url.origin].Keys == old(metadataMap)[url.origin].Keys - {url.path}
        && writes == old(writes) + [[Delete(FileSystemUrlToMetadataKey(url))]]
      ensures forall u :: u != url ==> ReadEntry(u) == old(ReadEntry(u))
      ensures forall o :: o in old(metadataMap) && o != url.origin ==> metadataMap[o] == old(metadataMap)[o]
      ensures old(EntriesWellFormed()) ==> EntriesWellFormed()
      ensures dbStatus == old(dbStatus) && largestChangestamp == old(largestChangestamp)
      ensures syncRootDirectoryResourceId == old(syncRootDirectoryResourceId)
      ensures incrementalSyncOrigins == old(incrementalSyncOrigins) && disabledOrigins == old(disabledOrigins)
      ensures originByResourceId == old(originByResourceId)
    {
      if url.origin !in metadataMap {
        return Immediate(DatabaseErrorNotFound);
      }
      if url.path in metadataMap[url.origin] {
        metadataMap := metadataMap[url.origin := metadataMap[url.origin] - {url.path}];
        writes := writes + [[Delete(FileSystemUrlToMetadataKey(url))]];
        return AfterWrite;
      }
      return Immediate(DatabaseErrorNotFound);
    }

    /** AddIncrementalSyncOrigin: a new origin becomes incremental; its id is
        added to the reverse map unless that id is already there. */
    method AddIncrementalSyncOrigin(origin: Origin, rid: ResourceId)
      requires !IsIncrementalSyncOrigin(origin) && !IsOriginDisabled(origin)
      requires dbStatus == StatusOk
      modifies this
      ensures IsIncrementalSyncOrigin(origin) && !IsOriginDisabled(origin)
      ensures incrementalSyncOrigins == old(incrementalSyncOrigins)[origin := rid]
      ensures disabledOrigins == old(disabledOrigins)
      ensures originByResourceId ==
        if rid in old(originByResourceId) then old(originByResourceId) else old(originByResourceId)[rid := origin]
      ensures old(ReverseConsistent()) && (rid in old(originByResourceId) ==> old(originByResourceId)[rid] == origin) ==>
        ReverseConsistent() && GetOriginByOriginRootDirectoryId(rid) == Some(origin)
      ensures writes == old(writes) + [[Delete(CreateKeyForOriginRoot(origin, DisabledOrigin)),
                                        Put(CreateKeyForOriginRoot(origin, IncrementalSyncOrigin), rid)]]
      ensures dbStatus == old(dbStatus) && largestChangestamp == old(largestChangestamp)
      ensures syncRootDirectoryResourceId == old(syncRootDirectoryResourceId) && metadataMap == old(metadataMap)
    {
      incrementalSyncOrigins := incrementalSyncOrigins[origin := rid];
      if rid !in originByResourceId {
        originByResourceId := originByResourceId[rid := origin];
      }
      writes := writes + [[Delete(CreateKeyForOriginRoot(origin, DisabledOrigin)),
                           Put(CreateKeyForOriginRoot(origin, IncrementalSyncOrigin), rid)]];
    }

    method SetSyncRootDirectory(rid: ResourceId)
      modifies this
      ensures syncRootDirectoryResourceId == rid
      ensures writes == old(writes) + [[Put(SyncRootDirectoryKey, rid)]]
      ensures dbStatus == old(dbStatus) && largestChangestamp == old(largestChangestamp)
      ensures incrementalSyncOrigins == old(incrementalSyncOrigins) && disabledOrigins == old(disabledOrigins)
      ensures originByResourceId == old(originByResourceId) && metadataMap == old(metadataMap)
    {
      syncRootDirectoryResourceId := rid;
      writes := writes + [[Put(SyncRootDirectoryKey, rid)]];
    }

    /** SetOriginRootDirectory: a known origin gets a new root directory id in
        the table it is in (incremental first). */
    method SetOriginRootDirectory(origin: Origin, rid: ResourceId)
      requires IsKnownOrigin(origin)
      modifies this
      ensures origin in old(incrementalSyncOrigins) ==>
        && incrementalSyncOrigins == old(incrementalSyncOrigins)[origin := rid]
        && disabledOrigins == old(disabledOrigins)
        && writes == old(writes) + [[Put(CreateKeyForOriginRoot(origin, IncrementalSyncOrigin), rid)]]
        && originByResourceId == UpdateResourceIdMap(old(incrementalSyncOrigins), old(originByResourceId), origin, rid).2
      ensures origin !in old(incrementalSyncOrigins) ==>
        && incrementalSyncOrigins == old(incrementalSyncOrigins)
        && disabledOrigins == old(disabledOrigins)[origin := rid]
        && writes == old(writes) + [[Put(CreateKeyForOriginRoot(origin, DisabledOrigin), rid)]]
        && originByResourceId == UpdateResourceIdMap(old(disabledOrigins), old(originByResourceId), origin, rid).2
      ensures old(ReverseConsistent()) && (rid in old(originByResourceId) ==> old(originByResourceId)[rid] == origin) ==>
        ReverseConsistent() && GetOriginByOriginRootDirectoryId(rid) == Some(origin)
      ensures dbStatus == old(dbStatus) && largestChangestamp == old(largestChangestamp)
      ensures syncRootDirectoryResourceId == old(syncRootDirectoryResourceId) && metadataMap == old(metadataMap)
    {
      var syncType;
      var updated := UpdateResourceIdMap(incrementalSyncOrigins, originByResourceId, origin, rid);
      if updated.0 {
        incrementalSyncOrigins, originByResourceId := updated.1, updated.2;
        syncType := IncrementalSyncOrigin;
      } else {
        updated := UpdateResourceIdMap(disabledOrigins, originByResourceId, origin, rid);
        disabledOrigins, originByResourceId := updated.1, updated.2;
        syncType := DisabledOrigin;
      }
      writes := writes + [[Put(CreateKeyForOriginRoot(origin, syncType), rid)]];
    }

    /** EnableOrigin: a disabled origin leaves both tables and becomes unknown
        to the store. Its id stays in the reverse map. */
    method EnableOrigin(origin: Origin)
      modifies this
      ensures origin !in old(disabledOrigins) ==>
        && incrementalSyncOrigins == old(incrementalSyncOrigins) && disabledOrigins == old(disabledOrigins)
        && writes == old(writes)
      ensures origin in old(disabledOrigins) ==>
        && !IsKnownOrigin(origin)
        && incrementalSyncOrigins == old(incrementalSyncOrigins) - {origin}
        && disabledOrigins == old(disabledOrigins) - {origin}
        && writes == old(writes) + [[Delete(CreateKeyForOriginRoot(origin, IncrementalSyncOrigin)),
                                     Delete(CreateKeyForOriginRoot(origin, DisabledOrigin))]]
      ensures old(ReverseConsistent()) ==> ReverseConsistent()
      ensures originByResourceId == old(originByResourceId)
      ensures origin in old(disabledOrigins) && old(ReverseConsistent()) ==>
        GetOriginByOriginRootDirectoryId(old(disabledOrigins)[origin]) == Some(origin)
      ensures dbStatus == old(dbStatus) && largestChangestamp == old(largestChangestamp)
      ensures syncRootDirectoryResourceId == old(syncRootDirectoryResourceId) && metadataMap == old(metadataMap)
    {
      if origin !in disabledOrigins {
        return;
      }
      disabledOrigins := disabledOrigins - {origin};
      if origin in incrementalSyncOrigins {
        incrementalSyncOrigins := incrementalSyncOrigins - {origin};
      }
      writes := writes + [[Delete(CreateKeyForOriginRoot(origin, IncrementalSyncOrigin)),
                           Delete(CreateKeyForOriginRoot(origin, DisabledOrigin))]];
    }

    /** DisableOrigin: an incremental origin moves, with its id, to the
        disabled table, and all of its file metadata is dropped. */
    method DisableOrigin(origin: Origin)
      modifies this
      ensures origin !in old(incrementalSyncOrigins) ==>
        && incrementalSyncOrigins == old(incrementalSyncOrigins) && disabledOrigins == old(disabledOrigins)
        && metadataMap == old(metadataMap) && writes == old(writes)
      ensures origin in old(incrementalSyncOrigins) ==>
        && IsOriginDisabled(origin) && !IsIncrementalSyncOrigin(origin)
        && incrementalSyncOrigins == old(incrementalSyncOrigins) - {origin}
        && disabledOrigins == old(disabledOrigins)[origin := old(incrementalSyncOrigins)[origin]]
        && metadataMap == old(metadataMap) - {origin}
        && |writes| == |old(writes)| + 1 && writes[..|old(writes)|] == old(writes)
        && OriginRemovalBatch(writes[|old(writes)|], old(metadataMap), origin,
             [Delete(CreateKeyForOriginRoot(origin, IncrementalSyncOrigin)),
              Put(CreateKeyForOriginRoot(origin, DisabledOrigin), old(incrementalSyncOrigins)[origin])])
      ensures old(ReverseConsistent()) ==> ReverseConsistent()
      ensures originByResourceId == old(originByResourceId)
      ensures dbStatus == old(dbStatus) && largestChangestamp == old(largestChangestamp)
      ensures syncRootDirectoryResourceId == old(syncRootDirectoryResourceId)
    {
      if origin !in incrementalSyncOrigins {
        return;
      }
      var rid := incrementalSyncOrigins[origin];
      incrementalSyncOrigins := incrementalSyncOrigins - {origin};
      disabledOrigins := disabledOrigins[origin := rid];
      var batch := [Delete(CreateKeyForOriginRoot(origin, IncrementalSyncOrigin)),
                    Put(CreateKeyForOriginRoot(origin, DisabledOrigin), rid)];
      batch := AppendMetadataDeletionToBatch(metadataMap, origin, batch);
      metadataMap := metadataMap - {origin};
      writes := writes + [batch];
    }

    /** RemoveOrigin: a known origin leaves its table (the incremental one when
        it is in both), its id leaves the reverse map and its file metadata is
        dropped. */
    method RemoveOrigin(origin: Origin)
      modifies this
      ensures !old(IsKnownOrigin(origin)) ==>
        && incrementalSyncOrigins == old(incrementalSyncOrigins) && disabledOrigins == old(disabledOrigins)
        && originByResourceId == old(originByResourceId)
        && metadataMap == old(metadataMap) && writes == old(writes)
      ensures old(IsKnownOrigin(origin)) ==>
        var rid := if origin in old(incrementalSyncOrigins) then old(incrementalSyncOrigins)[origin]
                   else old(disabledOrigins)[origin];
        && incrementalSyncOrigins == old(incrementalSyncOrigins) - {origin}
        && disabledOrigins == (if origin in old(incrementalSyncOrigins) then old(disabledOrigins)
                               else old(disabledOrigins) - {origin})
        && originByResourceId == old(originByResourceId) - {rid}
        && metadataMap == old(metadataMap) - {origin}
        && |writes| == |old(writes)| + 1 && writes[..|old(writes)|] == old(writes)
        && OriginRemovalBatch(writes[|old(writes)|], old(metadataMap), origin,
             [Delete(CreateKeyForOriginRoot(origin, IncrementalSyncOrigin)),
              Delete(CreateKeyForOriginRoot(origin, DisabledOrigin))])
      ensures old(ReverseConsistent()) ==> ReverseConsistent() && !IsKnownOrigin(origin)
      ensures dbStatus == old(dbStatus) && largestChangestamp == old(largestChangestamp)
      ensures syncRootDirectoryResourceId == old(syncRootDirectoryResourceId)
    {
      var rid;
      if origin in incrementalSyncOrigins {
        rid := incrementalSyncOrigins[origin];
        incrementalSyncOrigins := incrementalSyncOrigins - {origin};
      } else if origin in disabledOrigins {
        rid := disabledOrigins[origin];
        disabledOrigins := disabledOrigins - {origin};
      } else {
        return;
      }
      originByResourceId := originByResourceId - {rid};
      var batch := [Delete(CreateKeyForOriginRoot(origin, IncrementalSyncOrigin)),
                    Delete(CreateKeyForOriginRoot(origin, DisabledOrigin))];
      batch := AppendMetadataDeletionToBatch(metadataMap, origin, batch);
      metadataMap := metadataMap - {origin};
      writes := writes + [batch];
    }

    /** UpdateDBStatus, run when a write batch completes. */
    method UpdateDBStatus(status: SyncStatusCode)
      modifies this
      ensures dbStatus == NextDBStatus(old(dbStatus), status)
      ensures largestChangestamp == old(largestChangestamp)
      ensures syncRootDirectoryResourceId == old(syncRootDirectoryResourceId)
      ensures incrementalSyncOrigins == old(incrementalSyncOrigins) && disabledOrigins == old(disabledOrigins)
      ensures originByResourceId == old(originByResourceId) && metadataMap == old(metadataMap)
      ensures writes == old(writes)
    {
      if dbStatus != StatusOk && dbStatus != DatabaseErrorNotFound {
        dbStatus := status;
        return;
      }
      dbStatus := StatusOk;
    }

    predicate IsConflicted(url: FileSystemUrl)
      reads this
    {
      url.origin in metadataMap && url.path in metadataMap[url.origin] && metadataMap[url.origin][url.path].conflicted
    }

    predicate IsToBeFetched(url: FileSystemUrl)
      reads this
    {
      url.origin in metadataMap && url.path in metadataMap[url.origin] && metadataMap[url.origin][url.path].toBeFetched
    }

    /** GetConflictURLs: exactly the files whose metadata is marked conflicted. */
    method GetConflictURLs() returns (status: SyncStatusCode, urls: set<FileSystemUrl>)
      requires dbStatus == StatusOk
      ensures status == StatusOk
      ensures forall u :: u in urls <==> IsConflicted(u)
    {
      urls := {};
      var origins := metadataMap.Keys;
      while origins != {}
        invariant origins <= metadataMap.Keys
        invariant forall u :: u in urls <==> IsConflicted(u) && u.origin !in origins
        decreases |origins|
      {
        var o :| o in origins;
        var paths := metadataMap[o].Keys;
        while paths != {}
          invariant paths <= metadataMap[o].Keys
          invariant forall u :: u in urls <==>
            IsConflicted(u) && (u.origin !in origins || (u.origin == o && u.path !in paths))
          decreases |paths|
        {
          var p :| p in paths;
          if metadataMap[o][p].conflicted {
            urls := urls + {FileSystemUrl(o, p)};
          }
          paths := paths - {p};
        }
        origins := origins - {o};
      }
      return StatusOk, urls;
    }

    /** GetToBeFetchedFiles: each file marked to be fetched, once, with its
        metadata. */
    method GetToBeFetchedFiles() returns (status: SyncStatusCode, list: seq<(FileSystemUrl, DriveMetadata)>)
      requires dbStatus == StatusOk
      ensures status == StatusOk
      ensures forall k :: 0 <= k < |list| ==>
        IsToBeFetched(list[k].0) && list[k].1 == metadataMap[list[k].0.origin][list[k].0.path]
      ensures forall u :: IsToBeFetched(u) ==> exists k :: 0 <= k < |list| && list[k].0 == u
      ensures forall i, j :: 0 <= i < j < |list| ==> list[i].0 != list[j].0
      ensures EntriesWellFormed() ==> forall k :: 0 <= k < |list| ==> !IsConflicted(list[k].0)
    {
      list := [];
      var origins := metadataMap.Keys;
      while origins != {}
        invariant origins <= metadataMap.Keys
        invariant forall k :: 0 <= k < |list| ==>
          IsToBeFetched(list[k].0) && list[k].0.origin !in origins
          && list[k].1 == metadataMap[list[k].0.origin][list[k].0.path]
        invariant forall u :: IsToBeFetched(u) && u.origin !in origins ==> exists k :: 0 <= k < |list| && list[k].0 == u
        invariant forall i, j :: 0 <= i < j < |list| ==> list[i].0 != list[j].0
        decreases |origins|
      {
        var o :| o in origins;
        var paths := metadataMap[o].Keys;
        while paths != {}
          invariant paths <= metadataMap[o].Keys
          invariant forall k :: 0 <= k < |list| ==>
            IsToBeFetched(list[k].0)
            && (list[k].0.origin !in origins || (list[k].0.origin == o && list[k].0.path !in paths))
            && list[k].1 == metadataMap[list[k].0.origin][list[k].0.path]
          invariant forall u :: IsToBeFetched(u) && (u.origin !in origins || (u.origin == o && u.path !in paths)) ==>
            exists k :: 0 <= k < |list| && list[k].0 == u
          invariant forall i, j :: 0 <= i < j < |list| ==> list[i].0 != list[j].0
          decreases |paths|
        {
          var p :| p in paths;
          if metadataMap[o][p].toBeFetched {
            ghost var before := list;
            list := list + [(FileSystemUrl(o, p), metadataMap[o][p])];
            assert forall k :: 0 <= k < |before| ==> list[k] == before[k];
            assert list[|before|].0 == FileSystemUrl(o, p);
          }
          paths := paths - {p};
        }
        origins := origins - {o};
      }
      return StatusOk, list;
    }

    /** GetResourceIdForOrigin: "" while there is no sync root directory;
        otherwise the origin's id from whichever table holds it, or "". */
    function GetResourceIdForOrigin(origin: Origin): (rid: ResourceId)
      reads this
      ensures syncRootDirectoryResourceId == "" ==> rid == ""
      ensures syncRootDirectoryResourceId != "" && origin in incrementalSyncOrigins ==>
        rid == incrementalSyncOrigins[origin]
      ensures syncRootDirectoryResourceId != "" && origin !in incrementalSyncOrigins && origin in disabledOrigins ==>
        rid == disabledOrigins[origin]
      ensures !IsKnownOrigin(origin) ==> rid == ""
    {
      if syncRootDirectoryResourceId == "" then ""
      else if origin in incrementalSyncOrigins then incrementalSyncOrigins[origin]
      else if origin in disabledOrigins then disabledOrigins[origin]
      else ""
    }

    /** GetAllOrigins: the incremental origins, then the disabled ones. */
    method GetAllOrigins() returns (origins: seq<Origin>)
      ensures |origins| == |incrementalSyncOrigins| + |disabledOrigins|
      ensures forall k :: 0 <= k < |incrementalSyncOrigins| ==> origins[k] in incrementalSyncOrigins
      ensures forall k :: |incrementalSyncOrigins| <= k < |origins| ==> origins[k] in disabledOrigins
      ensures forall o :: IsKnownOrigin(o) ==> o in origins
      ensures ReverseConsistent() ==> forall i, j :: 0 <= i < j < |origins| ==> origins[i] != origins[j]
    {
      origins := AddOriginsToVector([], incrementalSyncOrigins);
      assert origins[0..] == origins;
      var all := AddOriginsToVector(origins, disabledOrigins);
      assert all[..|origins|] == origins;
      return all;
    }

    function GetOriginByOriginRootDirectoryId(rid: ResourceId): (origin: Option<Origin>)
      reads this
      ensures origin.Some? <==> rid in originByResourceId
      ensures origin.Some? ==> origin.value == originByResourceId[rid]
    {
      if rid in originByResourceId then Some(originByResourceId[rid]) else None
    }
  }

  /** A batch that first holds `head` and then one metadata Delete for each
      file the origin had. */
  predicate OriginRemovalBatch(batch: WriteBatch, metadataMap: MetadataMap, origin: Origin, head: WriteBatch)
  {
    && |head| <= |batch|
    && batch[..|head|] == head
    && |batch| == |head| + (if origin in metadataMap then |metadataMap[origin]| else 0)
    && (origin in metadataMap ==> forall p :: p in metadataMap[origin] ==> MetadataDeletion(origin, p) in batch[|head|..])
  }

  /** With a consistent reverse map, the id the store reports for a known
      origin leads back to that origin. */
  lemma ResourceIdResolvesBack(store: MetadataStore, origin: Origin)
    requires store.ReverseConsistent()
    requires store.IsKnownOrigin(origin) && store.syncRootDirectoryResourceId != ""
    ensures store.GetOriginByOriginRootDirectoryId(store.GetResourceIdForOrigin(origin)) == Some(origin)
  {
  }

  /** A consistent reverse map forces the forward tables to be disjoint and
      free of shared ids. */
  lemma ReverseConsistentMeansDistinctIds(store: MetadataStore)
    requires store.ReverseConsistent()
    ensures DistinctResourceIds(store.incrementalSyncOrigins, store.disabledOrigins)
  {
  }
}
