/** browser_sync::PostCommitMessageCommand: sends the commit message built
    earlier in the sync cycle. When the post fails, none of the changes
    reached the server, so the SYNCING bit set on each committed item is
    cleared again; when it succeeds, the response is kept for the next
    step. */
module PostCommit {
  import opened Wrappers

  type Id = string

  /** The parts of a syncable entry this command can touch: the SYNCING
      bit, and the IS_UNSYNCED bit and base version it must leave alone. */
  datatype Entry = Entry(syncing: bool, isUnsynced: bool, baseVersion: int)

  /** The outcome of a syncer step. */
  datatype SyncerError =
    | SyncerOk
    | NetworkConnectionUnavailable
    | NetworkIoError
    | SyncServerError
    | SyncAuthError
    | ServerReturnTransientError
    | ServerReturnThrottled

  /** A server response, kept as opaque bytes. */
  datatype ClientToServerResponse = ClientToServerResponse(payload: seq<bv8>)

  /** The entries after SYNCING has been cleared, in order, on each of
      `ids`. */
  function ClearSyncing(entries: map<Id, Entry>, ids: seq<Id>): (r: map<Id, Entry>)
    requires forall id :: id in ids ==> id in entries
    ensures r.Keys == entries.Keys
    // A named entry loses its SYNCING bit and keeps everything else.
    ensures forall id :: id in ids ==> r[id] == entries[id].(syncing := false)
    // Every other entry is as it was.
    ensures forall id :: id in entries && id !in ids ==> r[id] == entries[id]
  {
    if ids == [] then entries
    else
      var id := ids[0];
      ClearSyncing(entries[id := entries[id].(syncing := false)], ids[1..])
  }

  /** Clearing twice is clearing once. */
  lemma ClearSyncingIdempotent(entries: map<Id, Entry>, ids: seq<Id>)
    requires forall id :: id in ids ==> id in entries
    ensures ClearSyncing(ClearSyncing(entries, ids), ids) == ClearSyncing(entries, ids)
  {
    var once := ClearSyncing(entries, ids);
    var twice := ClearSyncing(once, ids);
    assert forall id :: id in twice ==> twice[id] == once[id];
  }

  /** Only the set of ids matters, not their order or repetitions. */
  lemma ClearSyncingDependsOnlyOnIdSet(entries: map<Id, Entry>, ids: seq<Id>, others: seq<Id>)
    requires forall id :: id in ids ==> id in entries
    requires forall id :: id in others <==> id in ids
    ensures ClearSyncing(entries, ids) == ClearSyncing(entries, others)
  {
    var a := ClearSyncing(entries, ids);
    var b := ClearSyncing(entries, others);
    assert forall id :: id in a ==> a[id] == b[id];
  }

  /** The session as this command sees it: the directory's entries and
      the status controller's commit state. */
  class SyncSession {
    var entries: map<Id, Entry>
    /** The ids put into the commit message. */
    var commitIds: seq<Id>
    var itemsCommitted: bool
    var commitResponse: Option<ClientToServerResponse>
    /** How many client-to-server messages were posted. */
    var messagesPosted: nat

    constructor (entries: map<Id, Entry>, commitIds: seq<Id>)
      ensures this.entries == entries && this.commitIds == commitIds
      ensures !itemsCommitted && commitResponse == None && messagesPosted == 0
    {
      this.entries := entries;
      this.commitIds := commitIds;
      itemsCommitted := false;
      commitResponse := None;
      messagesPosted := 0;
    }

    /** ExecuteImpl. `postResult` and `response` are what
        PostClientToServerMessage returns. Every committed id names an
        entry of the directory: looking one up inside the write
        transaction must succeed. */
    method ExecuteImpl(postResult: SyncerError, response: ClientToServerResponse) returns (result: SyncerError)
      requires forall id :: id in commitIds ==> id in entries
      modifies this
      // Nothing to commit: nothing is posted or touched.
      ensures old(commitIds) == [] ==> result == SyncerOk && unchanged(this)
      // A failed post reports its error, clears SYNCING on exactly the
      // committed entries and records no commit.
      ensures old(commitIds) != [] && postResult != SyncerOk ==>
        && result == postResult
        && entries == ClearSyncing(old(entries), old(commitIds))
        && itemsCommitted == old(itemsCommitted) && commitResponse == old(commitResponse)
      // A successful post records the commit and keeps the response.
      ensures old(commitIds) != [] && postResult == SyncerOk ==>
        && result == SyncerOk
        && entries == old(entries)
        && itemsCommitted && commitResponse == Some(response)
      ensures old(commitIds) != [] ==> messagesPosted == old(messagesPosted) + 1
      ensures commitIds == old(commitIds)
    {
      if commitIds == [] {
        return SyncerOk;
      }
      messagesPosted := messagesPosted + 1;
      if postResult != SyncerOk {
        var i := 0;
        while i < |commitIds|
          invariant 0 <= i <= |commitIds|
          invariant entries.Keys == old(entries).Keys
          invariant forall id :: id in commitIds[..i] ==>
            id in old(entries) && entries[id] == old(entries)[id].(syncing := false)
          invariant forall id :: id in old(entries) && id !in commitIds[..i] ==> entries[id] == old(entries)[id]
          invariant commitIds == old(commitIds) && messagesPosted == old(messagesPosted) + 1
          invariant itemsCommitted == old(itemsCommitted) && commitResponse == old(commitResponse)
        {
          var id := commitIds[i];
          assert commitIds[..i + 1] == commitIds[..i] + [id];
          entries := entries[id := entries[id].(syncing := false)];
          i := i + 1;
        }
        assert commitIds[..i] == commitIds;
        var cleared := ClearSyncing(old(entries), commitIds);
        assert forall id :: id in entries ==> entries[id] == cleared[id];
        return postResult;
      }
      itemsCommitted := true;
      commitResponse := Some(response);
      return SyncerOk;
    }
  }
}
