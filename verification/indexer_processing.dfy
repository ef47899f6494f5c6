/**
 * Processing one queued batch: the guard that skips groups which are not
 * indexed, the order of the indexing steps, and how errors raised while
 * processing are handled. The mail and contact indexers are opaque; a step
 * names the call made to them.
 */
module IndexerProcessing {
  import opened IndexerTypes

  /** One call made while processing a batch. */
  datatype ProcessingStep =
    | MailIndexerStep(events: seq<EntityUpdate>, groupId: GroupId, batchId: BatchId)
    | ContactIndexerStep(events: seq<EntityUpdate>, groupId: GroupId, batchId: BatchId)
    | WriteGroupDataBatchId(groupId: GroupId, batchId: BatchId)

  /** The batch's group is one of the user's index memberships and is among the indexed groups. */
  predicate IsProcessed(batch: QueuedBatch, memberships: seq<Membership>, indexedGroupIds: seq<GroupId>)
  {
    && (exists i :: 0 <= i < |memberships| && memberships[i].group == batch.groupId)
    && batch.groupId in indexedGroupIds
  }

  /**
   * The calls made for a batch: none for a group that is not processed;
   * otherwise the mail indexer, then the contact indexer, each given the
   * whole batch, and finally the batch id is recorded for the group. The
   * steps are listed in the order they are awaited; a step that throws stops
   * the later ones, and what follows an error is `HandleProcessingError`.
   */
  function ProcessEntityEvents(batch: QueuedBatch, memberships: seq<Membership>, indexedGroupIds: seq<GroupId>)
    : (r: seq<ProcessingStep>)
    ensures r == [] <==> !IsProcessed(batch, memberships, indexedGroupIds)
    ensures r != [] ==> |r| == 3 && r[|r| - 1] == WriteGroupDataBatchId(batch.groupId, batch.batchId)
    ensures forall k :: 0 <= k < |r| ==> r[k].groupId == batch.groupId && r[k].batchId == batch.batchId
    ensures forall k :: 0 <= k < |r| && !r[k].WriteGroupDataBatchId? ==> r[k].events == batch.events
    ensures r != [] ==> r[0].MailIndexerStep? && r[1].ContactIndexerStep?
  {
    if !(exists i :: 0 <= i < |memberships| && memberships[i].group == batch.groupId) then []
    else if batch.groupId !in indexedGroupIds then []
    else
      [ MailIndexerStep(batch.events, batch.groupId, batch.batchId),
        ContactIndexerStep(batch.events, batch.groupId, batch.batchId),
        WriteGroupDataBatchId(batch.groupId, batch.batchId) ]
  }

  /** How an error raised while processing a batch is handled. */
  datatype ErrorReaction = Ignore | Rethrow(error: IndexError) | StopAndRecreateIndex

  /**
   * Cancellation is ignored; a database error is ignored once processing
   * has been stopped and thrown on before that; an invalid database stops
   * processing and recreates the index; everything else is thrown on.
   */
  function HandleProcessingError(e: IndexError, stoppedProcessing: bool): (r: ErrorReaction)
    ensures r.Rethrow? ==> r.error == e
    ensures r == StopAndRecreateIndex <==> e == InvalidDatabaseState
    ensures r == Ignore <==> e == Cancelled || (e == DbError && stoppedProcessing)
  {
    match e
    case Cancelled => Ignore
    case DbError => if stoppedProcessing then Ignore else Rethrow(e)
    case InvalidDatabaseState => StopAndRecreateIndex
    case _ => Rethrow(e)
  }
}
