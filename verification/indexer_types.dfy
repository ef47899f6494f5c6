/**
 * Shared vocabulary of the search indexer: groups, the ids of entity event
 * batches, queued batches and the errors the indexer distinguishes.
 */
module IndexerTypes {

  type GroupId = string

  /**
   * The id of an entity event batch: a generated id, ordered by the
   * millisecond it was created in and then by the rest of its bytes.
   */
  datatype BatchId = BatchId(timestamp: int, serial: nat)

  /** `a` is an older batch id than `b`. */
  predicate BatchLess(a: BatchId, b: BatchId)
  {
    a.timestamp < b.timestamp || (a.timestamp == b.timestamp && a.serial < b.serial)
  }

  lemma BatchLessTransitive(a: BatchId, b: BatchId, c: BatchId)
    requires BatchLess(a, b) && BatchLess(b, c)
    ensures BatchLess(a, c)
  {
  }

  lemma BatchLessTotal(a: BatchId, b: BatchId)
    requires a != b
    ensures BatchLess(a, b) || BatchLess(b, a)
  {
  }

  /** The timestamp a generated id was created at. */
  function GeneratedIdToTimestamp(id: BatchId): int
  {
    id.timestamp
  }

  /** The least generated id of a millisecond: every id created in it is at least this one. */
  function TimestampToGeneratedId(timestamp: int): (r: BatchId)
    ensures GeneratedIdToTimestamp(r) == timestamp
    ensures forall b: BatchId :: b.timestamp == timestamp ==> !BatchLess(b, r)
  {
    BatchId(timestamp, 0)
  }

  /** One change of an entity, as carried by a batch; its contents are opaque here. */
  datatype EntityUpdate = EntityUpdate(data: string)

  /** A batch of entity updates of one group, waiting to be indexed. */
  datatype QueuedBatch = QueuedBatch(groupId: GroupId, batchId: BatchId, events: seq<EntityUpdate>)

  /** The kinds of groups a user can be a member of. */
  datatype GroupType = MailGroup | ContactGroup | OtherGroup(code: string)

  /** A membership of the user in a group that is indexed. */
  datatype Membership = Membership(group: GroupId, groupType: GroupType)

  /** The errors the indexer reacts to. */
  datatype IndexError =
    | OutOfSync
    | InvalidDatabaseState
    | MembershipRemoved
    | Cancelled
    | DbError
    | OtherError
}
