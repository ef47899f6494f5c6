/**
 * Catching the search index up with the server after a restart: which
 * entity event batches are reloaded, which of them are queued, when the
 * index is declared out of sync, and how realtime batches that overlap the
 * reloaded ones are suppressed.
 *
 * The database, the REST client and the server clock are parameters: the
 * stored last-index time, the current server time and a function standing
 * for the server's answer to "all batches of this group from this id on".
 */
module IndexerCatchUp {
  import opened Results
  import opened IndexerTypes

  /** Batches up to one minute older than the newest processed one are reloaded. */
  const MISSED_BATCH_WINDOW_MS: int := 1000 * 60

  const MILLIS_PER_DAY: int := 24 * 60 * 60 * 1000

  function DaysToMillis(days: int): int
  {
    days * MILLIS_PER_DAY
  }

  /** A batch as the server returns it. */
  datatype ServerBatch = ServerBatch(id: BatchId, events: seq<EntityUpdate>)

  /** The server's answer to a request for all batches of a group from some id on. */
  datatype ServerLoad = Loaded(batches: seq<ServerBatch>) | NotAuthorized | LoadFailed

  /** The ids of the last processed batches of a group, newest first, as stored in the index. */
  datatype PersistentGroup = PersistentGroup(groupId: GroupId, eventBatchIds: seq<BatchId>)

  /** Why loading stopped: the user lost access to a group, or an error to be thrown on. */
  datatype Abort = PermissionLost | Raised(error: IndexError)

  /** What catching up leaves behind. */
  datatype CatchUpOutcome =
    | CaughtUp(queued: seq<QueuedBatch>, initiallyLoaded: map<GroupId, BatchId>)
    | LostPermission
    | CatchUpFailed(error: IndexError)

  // ---------------------------------------------------------------------
  // Realtime filter
  // ---------------------------------------------------------------------

  /** The realtime batch is newer than whatever catch-up loaded for its group. */
  predicate NewerThanLoaded(initiallyLoaded: map<GroupId, BatchId>, batch: QueuedBatch)
  {
    batch.groupId !in initiallyLoaded || BatchLess(initiallyLoaded[batch.groupId], batch.batchId)
  }

  /**
   * The realtime queue hands a batch to the main queue, or drops it when
   * catch-up already loaded it or something newer of the same group.
   */
  function ForwardRealtime(initiallyLoaded: map<GroupId, BatchId>, mainQueue: seq<QueuedBatch>, next: QueuedBatch)
    : (r: seq<QueuedBatch>)
    ensures r == mainQueue || r == mainQueue + [next]
    ensures r == mainQueue + [next] <==> NewerThanLoaded(initiallyLoaded, next)
  {
    if NewerThanLoaded(initiallyLoaded, next) then mainQueue + [next] else mainQueue
  }

  // ---------------------------------------------------------------------
  // Where to start reloading
  // ---------------------------------------------------------------------

  /**
   * The id from which the batches of a group are reloaded, given the ids of
   * its last processed batches, newest first. It lies a minute before the
   * newest one, to catch batches the newest one overtook, but never at or
   * below the oldest one; when the minute reaches that far back, loading
   * starts just before the oldest one's millisecond, so that it is loaded too.
   */
  function StartId(eventBatchIds: seq<BatchId>): (r: BatchId)
    requires |eventBatchIds| > 0
    ensures var oldest := eventBatchIds[|eventBatchIds| - 1];
            var window := TimestampToGeneratedId(eventBatchIds[0].timestamp - MISSED_BATCH_WINDOW_MS);
            && (BatchLess(r, oldest) <==> !BatchLess(oldest, window))
            && (!BatchLess(r, oldest) ==> r == window)
            && (BatchLess(r, oldest) ==> forall b: BatchId :: b.timestamp == oldest.timestamp ==> BatchLess(r, b))
            && (BatchLess(r, oldest) ==> GeneratedIdToTimestamp(r) == oldest.timestamp - 1)
            && (BatchLess(r, oldest) ==> forall b: BatchId :: b.timestamp < oldest.timestamp - 1 ==> BatchLess(b, r))
            && (BatchLess(r, oldest) ==> forall b: BatchId :: b.timestamp == oldest.timestamp - 1 ==> !BatchLess(b, r))
    ensures !BatchLess(eventBatchIds[0], eventBatchIds[|eventBatchIds| - 1]) ==> BatchLess(r, eventBatchIds[0])
  {
    var newest := eventBatchIds[0];
    var oldest := eventBatchIds[|eventBatchIds| - 1];
    var startId := TimestampToGeneratedId(GeneratedIdToTimestamp(newest) - MISSED_BATCH_WINDOW_MS);
    if !BatchLess(oldest, startId) then
      TimestampToGeneratedId(GeneratedIdToTimestamp(oldest) - 1)
    else
      startId
  }

  // ---------------------------------------------------------------------
  // Which batches to queue
  // ---------------------------------------------------------------------

  /** A reloaded batch is queued when it was not processed before and lies after the start id. */
  predicate ShouldQueue(remembered: seq<BatchId>, startId: BatchId, id: BatchId)
  {
    id !in remembered && BatchLess(startId, id)
  }

  /** The batches of one group to queue, in the order the server returned them. */
  function BatchesToQueue(groupId: GroupId, remembered: seq<BatchId>, startId: BatchId, onServer: seq<ServerBatch>)
    : (r: seq<QueuedBatch>)
    ensures |r| <= |onServer|
    ensures |r| == |onServer| <==> forall i :: 0 <= i < |onServer| ==> ShouldQueue(remembered, startId, onServer[i].id)
    ensures forall j :: 0 <= j < |r| ==>
              && r[j].groupId == groupId
              && ShouldQueue(remembered, startId, r[j].batchId)
              && ServerBatch(r[j].batchId, r[j].events) in onServer
    ensures forall i :: 0 <= i < |onServer| && ShouldQueue(remembered, startId, onServer[i].id) ==>
              QueuedBatch(groupId, onServer[i].id, onServer[i].events) in r
  {
    if |onServer| == 0 then []
    else
      var b := onServer[0];
      var rest := BatchesToQueue(groupId, remembered, startId, onServer[1..]);
      assert forall i :: 1 <= i < |onServer| ==> onServer[i] == onServer[1..][i - 1];
      if ShouldQueue(remembered, startId, b.id) then [QueuedBatch(groupId, b.id, b.events)] + rest else rest
  }

  /** The server batch a queued batch was made from. */
  function ServerOf(q: QueuedBatch): ServerBatch
  {
    ServerBatch(q.batchId, q.events)
  }

  /** `x` comes before `y` in the server's answer. */
  predicate Precedes(onServer: seq<ServerBatch>, x: ServerBatch, y: ServerBatch)
  {
    exists a, b :: 0 <= a < b < |onServer| && onServer[a] == x && onServer[b] == y
  }

  lemma PrecedesInTail(onServer: seq<ServerBatch>, x: ServerBatch, y: ServerBatch)
    requires |onServer| > 0 && Precedes(onServer[1..], x, y)
    ensures Precedes(onServer, x, y)
  {
    var a, b :| 0 <= a < b < |onServer[1..]| && onServer[1..][a] == x && onServer[1..][b] == y;
    assert onServer[a + 1] == x && onServer[b + 1] == y;
  }

  lemma PrecedesFromHead(onServer: seq<ServerBatch>, y: ServerBatch)
    requires |onServer| > 0 && y in onServer[1..]
    ensures Precedes(onServer, onServer[0], y)
  {
    var b :| 0 <= b < |onServer[1..]| && onServer[1..][b] == y;
    assert onServer[b + 1] == y;
  }

  /** The batches of `queued` come from `onServer` in its order. */
  predicate InServerOrder(onServer: seq<ServerBatch>, queued: seq<QueuedBatch>)
  {
    forall j, k :: 0 <= j < k < |queued| ==> Precedes(onServer, ServerOf(queued[j]), ServerOf(queued[k]))
  }

  /** Keeping the order of the rest of the answer keeps the order of the whole answer. */
  lemma InServerOrderTail(onServer: seq<ServerBatch>, queued: seq<QueuedBatch>)
    requires |onServer| > 0 && InServerOrder(onServer[1..], queued)
    ensures InServerOrder(onServer, queued)
  {
    forall j, k | 0 <= j < k < |queued| ensures Precedes(onServer, ServerOf(queued[j]), ServerOf(queued[k])) {
      PrecedesInTail(onServer, ServerOf(queued[j]), ServerOf(queued[k]));
    }
  }

  /** Putting the head of the answer before batches of the rest of the answer keeps the order. */
  lemma InServerOrderCons(onServer: seq<ServerBatch>, head: QueuedBatch, queued: seq<QueuedBatch>)
    requires |onServer| > 0 && ServerOf(head) == onServer[0] && InServerOrder(onServer[1..], queued)
    requires forall j :: 0 <= j < |queued| ==> ServerOf(queued[j]) in onServer[1..]
    ensures InServerOrder(onServer, [head] + queued)
  {
    InServerOrderTail(onServer, queued);
    var r := [head] + queued;
    forall j, k | 0 <= j < k < |r| ensures Precedes(onServer, ServerOf(r[j]), ServerOf(r[k])) {
      assert r[k] == queued[k - 1];
      if j == 0 {
        PrecedesFromHead(onServer, ServerOf(queued[k - 1]));
      } else {
        assert r[j] == queued[j - 1];
      }
    }
  }

  /** The batches of a group are queued in the order the server returned them. */
  lemma {:induction false} BatchesToQueueKeepsOrder(groupId: GroupId, remembered: seq<BatchId>, startId: BatchId, onServer: seq<ServerBatch>)
    ensures InServerOrder(onServer, BatchesToQueue(groupId, remembered, startId, onServer))
    decreases |onServer|
  {
    if |onServer| > 0 {
      var rest := BatchesToQueue(groupId, remembered, startId, onServer[1..]);
      BatchesToQueueKeepsOrder(groupId, remembered, startId, onServer[1..]);
      if ShouldQueue(remembered, startId, onServer[0].id) {
        var head := QueuedBatch(groupId, onServer[0].id, onServer[0].events);
        assert forall j :: 0 <= j < |rest| ==> ServerOf(rest[j]) in onServer[1..];
        InServerOrderCons(onServer, head, rest);
      } else {
        InServerOrderTail(onServer, rest);
      }
    }
  }

  /**
   * The newest queued batch id of every group that has a queued batch,
   * updated batch by batch as they are queued.
   */
  function LatestQueued(queued: seq<QueuedBatch>): map<GroupId, BatchId>
  {
    if |queued| == 0 then map[]
    else
      var prev := LatestQueued(queued[..|queued| - 1]);
      var q := queued[|queued| - 1];
      if q.groupId !in prev || BatchLess(prev[q.groupId], q.batchId) then prev[q.groupId := q.batchId] else prev
  }

  /** `latest` holds, for exactly the groups of `queued`, the newest batch id queued for it. */
  predicate IsLatestPerGroup(queued: seq<QueuedBatch>, latest: map<GroupId, BatchId>)
  {
    && (forall j :: 0 <= j < |queued| ==> queued[j].groupId in latest)
    && (forall g :: g in latest ==> exists j :: 0 <= j < |queued| && queued[j].groupId == g && queued[j].batchId == latest[g])
    && (forall j :: 0 <= j < |queued| ==>
          queued[j].batchId == latest[queued[j].groupId] || BatchLess(queued[j].batchId, latest[queued[j].groupId]))
  }

  /** Remembering the newest id per group leaves no queued batch newer than what is remembered. */
  lemma LatestPerGroupNothingNewer(queued: seq<QueuedBatch>, latest: map<GroupId, BatchId>)
    requires IsLatestPerGroup(queued, latest)
    ensures forall j :: 0 <= j < |queued| ==> !NewerThanLoaded(latest, queued[j])
  {
    forall j | 0 <= j < |queued| ensures !NewerThanLoaded(latest, queued[j]) {
      var b, m := queued[j].batchId, latest[queued[j].groupId];
      assert b == m || BatchLess(b, m);
    }
  }

  lemma {:induction false} LatestQueuedIsLatest(queued: seq<QueuedBatch>)
    ensures IsLatestPerGroup(queued, LatestQueued(queued))
    decreases |queued|
  {
    if |queued| > 0 {
      var init := queued[..|queued| - 1];
      var last := |queued| - 1;
      LatestQueuedIsLatest(init);
      var prev := LatestQueued(init);
      var q := queued[last];
      var r := LatestQueued(queued);
      assert forall j :: 0 <= j < last ==> queued[j] == init[j];
      forall j | 0 <= j < |queued|
        ensures queued[j].groupId in r
        ensures queued[j].batchId == r[queued[j].groupId] || BatchLess(queued[j].batchId, r[queued[j].groupId])
      {
        if j < last && queued[j].groupId == q.groupId && q.groupId in prev {
          assert queued[j].batchId == prev[q.groupId] || BatchLess(queued[j].batchId, prev[q.groupId]);
        }
      }
      forall g | g in r
        ensures exists j :: 0 <= j < |queued| && queued[j].groupId == g && queued[j].batchId == r[g]
      {
        if g == q.groupId && r[g] == q.batchId {
          assert queued[last].groupId == g && queued[last].batchId == r[g];
        } else {
          assert g in prev && r[g] == prev[g];
          var j :| 0 <= j < |init| && init[j].groupId == g && init[j].batchId == prev[g];
          assert queued[j] == init[j];
        }
      }
    }
  }

  // ---------------------------------------------------------------------
  // Staleness
  // ---------------------------------------------------------------------

  /**
   * The index is out of date when it was last brought up to date so long ago
   * that the server may already have discarded batches it never saw.
   */
  function ThrowIfOutOfDate(lastIndexTimeMs: Option<int>, now: int, ttlDays: int): (r: Result<(), IndexError>)
    ensures lastIndexTimeMs.None? ==> r.Success?
    ensures lastIndexTimeMs.Some? ==> (r.Success? <==> now - lastIndexTimeMs.value < DaysToMillis(ttlDays))
    ensures r.Failure? ==> r.error == OutOfSync
  {
    match lastIndexTimeMs
    case None => Success(())
    case Some(last) =>
      if now - last >= DaysToMillis(ttlDays) then Failure(OutOfSync) else Success(())
  }

  // ---------------------------------------------------------------------
  // Loading the missed batches
  // ---------------------------------------------------------------------

  /** The index lost batches of a group: nothing was indexed before, and everything the server still has would be new. */
  predicate GapDetected(lastIndexTimeMs: Option<int>, onServer: seq<ServerBatch>, toQueue: seq<QueuedBatch>)
  {
    lastIndexTimeMs.None? && |onServer| == |toQueue|
  }

  /** The batches to queue for one group, or why loading stops. */
  function CatchUpGroup(group: PersistentGroup, lastIndexTimeMs: Option<int>, loadAll: (GroupId, BatchId) -> ServerLoad)
    : (r: Result<seq<QueuedBatch>, Abort>)
    ensures |group.eventBatchIds| == 0 ==> r == Success([])
    ensures r.Success? ==> forall j :: 0 <= j < |r.value| ==>
              && r.value[j].groupId == group.groupId
              && |group.eventBatchIds| > 0
              && ShouldQueue(group.eventBatchIds, StartId(group.eventBatchIds), r.value[j].batchId)
    ensures r == Failure(PermissionLost) <==>
              |group.eventBatchIds| > 0 && loadAll(group.groupId, StartId(group.eventBatchIds)) == NotAuthorized
    ensures r == Failure(Raised(OutOfSync)) ==> lastIndexTimeMs.None?
    ensures |group.eventBatchIds| > 0 && loadAll(group.groupId, StartId(group.eventBatchIds)) == LoadFailed ==>
              r == Failure(Raised(OtherError))
    ensures r.Success? && |r.value| > 0 ==>
              && |group.eventBatchIds| > 0
              && loadAll(group.groupId, StartId(group.eventBatchIds)).Loaded?
              && forall j :: 0 <= j < |r.value| ==>
                   ServerBatch(r.value[j].batchId, r.value[j].events) in loadAll(group.groupId, StartId(group.eventBatchIds)).batches
  {
    if |group.eventBatchIds| == 0 then Success([])
    else
      var startId := StartId(group.eventBatchIds);
      match loadAll(group.groupId, startId)
      case NotAuthorized => Failure(PermissionLost)
      case LoadFailed => Failure(Raised(OtherError))
      case Loaded(onServer) =>
        var toQueue := BatchesToQueue(group.groupId, group.eventBatchIds, startId, onServer);
        if GapDetected(lastIndexTimeMs, onServer, toQueue) then Failure(Raised(OutOfSync)) else Success(toQueue)
  }

  /**
   * When the server answers with batches, catch-up of the group queues every
   * batch it has not processed and that lies after the start id. It raises
   * the gap error exactly when no index time is stored and every answered
   * batch is such a batch.
   */
  lemma CatchUpGroupQueuesEveryNewBatch(group: PersistentGroup, lastIndexTimeMs: Option<int>, loadAll: (GroupId, BatchId) -> ServerLoad)
    requires |group.eventBatchIds| > 0 && loadAll(group.groupId, StartId(group.eventBatchIds)).Loaded?
    ensures var r := CatchUpGroup(group, lastIndexTimeMs, loadAll);
      var onServer := loadAll(group.groupId, StartId(group.eventBatchIds)).batches;
      var everyBatchNew := forall i :: 0 <= i < |onServer| ==>
                             ShouldQueue(group.eventBatchIds, StartId(group.eventBatchIds), onServer[i].id);
      && (r == Failure(Raised(OutOfSync)) <==> lastIndexTimeMs.None? && everyBatchNew)
      && (r.Success? <==> !(lastIndexTimeMs.None? && everyBatchNew))
      && (r.Success? ==> forall i ::
            (0 <= i < |onServer| && ShouldQueue(group.eventBatchIds, StartId(group.eventBatchIds), onServer[i].id)) ==>
            QueuedBatch(group.groupId, onServer[i].id, onServer[i].events) in r.value)
  {
  }

  /** Every batch queued for `groups` was reloaded for one of them and was not processed before. */
  predicate QueuedFrom(groups: seq<PersistentGroup>, queued: seq<QueuedBatch>)
  {
    forall j :: 0 <= j < |queued| ==> QueuedForSome(groups, queued[j])
  }

  predicate QueuedForSome(groups: seq<PersistentGroup>, batch: QueuedBatch)
  {
    exists i :: 0 <= i < |groups| && QueuedFor(groups[i], batch)
  }

  /** Every batch in `queued` is one that the catch-up of one of the `groups` queues. */
  predicate QueuedByGroups(groups: seq<PersistentGroup>, lastIndexTimeMs: Option<int>, loadAll: (GroupId, BatchId) -> ServerLoad, queued: seq<QueuedBatch>)
  {
    forall j :: 0 <= j < |queued| ==> QueuedBySome(groups, lastIndexTimeMs, loadAll, queued[j])
  }

  predicate QueuedBySome(groups: seq<PersistentGroup>, lastIndexTimeMs: Option<int>, loadAll: (GroupId, BatchId) -> ServerLoad, batch: QueuedBatch)
  {
    exists i :: 0 <= i < |groups| && CatchUpGroup(groups[i], lastIndexTimeMs, loadAll).Success? &&
                batch in CatchUpGroup(groups[i], lastIndexTimeMs, loadAll).value
  }

  /** A batch that a group's catch-up queues qualifies for that group. */
  lemma QueuedByGroupsQualify(groups: seq<PersistentGroup>, lastIndexTimeMs: Option<int>, loadAll: (GroupId, BatchId) -> ServerLoad, queued: seq<QueuedBatch>)
    requires QueuedByGroups(groups, lastIndexTimeMs, loadAll, queued)
    ensures QueuedFrom(groups, queued)
  {
    forall j | 0 <= j < |queued| ensures QueuedForSome(groups, queued[j]) {
      var g :| 0 <= g < |groups| && CatchUpGroup(groups[g], lastIndexTimeMs, loadAll).Success? &&
               queued[j] in CatchUpGroup(groups[g], lastIndexTimeMs, loadAll).value;
      var v := CatchUpGroup(groups[g], lastIndexTimeMs, loadAll).value;
      var k :| 0 <= k < |v| && v[k] == queued[j];
      assert QueuedFor(groups[g], queued[j]);
    }
  }

  /** Loading the first group and then the others keeps every collected batch traceable to its group. */
  lemma ThenQueuedByGroups(
    groups: seq<PersistentGroup>, lastIndexTimeMs: Option<int>, loadAll: (GroupId, BatchId) -> ServerLoad,
    rest: Result<seq<QueuedBatch>, Abort>)
    requires |groups| > 0
    requires rest.Success? ==> QueuedByGroups(groups[1..], lastIndexTimeMs, loadAll, rest.value)
    ensures var r := Then(CatchUpGroup(groups[0], lastIndexTimeMs, loadAll), rest);
            r.Success? ==> QueuedByGroups(groups, lastIndexTimeMs, loadAll, r.value)
  {
    var first := CatchUpGroup(groups[0], lastIndexTimeMs, loadAll);
    var r := Then(first, rest);
    if r.Success? {
      forall j | 0 <= j < |r.value| ensures QueuedBySome(groups, lastIndexTimeMs, loadAll, r.value[j]) {
        if j < |first.value| {
          assert r.value[j] == first.value[j];
          QueuedByFirst(groups, lastIndexTimeMs, loadAll, r.value[j]);
        } else {
          assert r.value[j] == rest.value[j - |first.value|];
          QueuedByLater(groups, lastIndexTimeMs, loadAll, r.value[j]);
        }
      }
    }
  }

  lemma QueuedByFirst(groups: seq<PersistentGroup>, lastIndexTimeMs: Option<int>, loadAll: (GroupId, BatchId) -> ServerLoad, batch: QueuedBatch)
    requires |groups| > 0 && CatchUpGroup(groups[0], lastIndexTimeMs, loadAll).Success?
    requires batch in CatchUpGroup(groups[0], lastIndexTimeMs, loadAll).value
    ensures QueuedBySome(groups, lastIndexTimeMs, loadAll, batch)
  {
  }

  lemma QueuedByLater(groups: seq<PersistentGroup>, lastIndexTimeMs: Option<int>, loadAll: (GroupId, BatchId) -> ServerLoad, batch: QueuedBatch)
    requires |groups| > 0 && QueuedBySome(groups[1..], lastIndexTimeMs, loadAll, batch)
    ensures QueuedBySome(groups, lastIndexTimeMs, loadAll, batch)
  {
    var i :| 0 <= i < |groups[1..]| && CatchUpGroup(groups[1..][i], lastIndexTimeMs, loadAll).Success? &&
             batch in CatchUpGroup(groups[1..][i], lastIndexTimeMs, loadAll).value;
    assert groups[1..][i] == groups[i + 1];
  }

  predicate QueuedFor(group: PersistentGroup, batch: QueuedBatch)
  {
    && group.groupId == batch.groupId
    && |group.eventBatchIds| > 0
    && ShouldQueue(group.eventBatchIds, StartId(group.eventBatchIds), batch.batchId)
  }

  /** Loading one part and then another: the first abort wins, otherwise the batches are concatenated. */
  function Then(first: Result<seq<QueuedBatch>, Abort>, rest: Result<seq<QueuedBatch>, Abort>)
    : Result<seq<QueuedBatch>, Abort>
  {
    if first.Failure? then first
    else if rest.Failure? then rest
    else Success(first.value + rest.value)
  }

  lemma ThenAssociative(a: Result<seq<QueuedBatch>, Abort>, b: Result<seq<QueuedBatch>, Abort>, c: Result<seq<QueuedBatch>, Abort>)
    ensures Then(a, Then(b, c)) == Then(Then(a, b), c)
  {
    if a.Success? && b.Success? && c.Success? {
      assert a.value + (b.value + c.value) == (a.value + b.value) + c.value;
    }
  }

  /**
   * The groups are loaded one after the other; the batches of all of them
   * are collected, unless one of them stops the loading.
   */
  function CollectBatches(groups: seq<PersistentGroup>, lastIndexTimeMs: Option<int>, loadAll: (GroupId, BatchId) -> ServerLoad)
    : (r: Result<seq<QueuedBatch>, Abort>)
    ensures r.Success? ==> QueuedFrom(groups, r.value)
    ensures r.Success? ==> QueuedByGroups(groups, lastIndexTimeMs, loadAll, r.value)
    ensures r.Success? <==> forall i :: 0 <= i < |groups| ==> CatchUpGroup(groups[i], lastIndexTimeMs, loadAll).Success?
  {
    if |groups| == 0 then Success([])
    else
      var first := CatchUpGroup(groups[0], lastIndexTimeMs, loadAll);
      var rest := CollectBatches(groups[1..], lastIndexTimeMs, loadAll);
      assert forall i :: 1 <= i < |groups| ==> groups[i] == groups[1..][i - 1];
      ThenQueuedByGroups(groups, lastIndexTimeMs, loadAll, rest);
      var r := Then(first, rest);
      assert r.Success? ==> QueuedFrom(groups, r.value) by {
        if r.Success? { QueuedByGroupsQualify(groups, lastIndexTimeMs, loadAll, r.value); }
      }
      r
  }

  /** `queued` holds every batch that the catch-up of one of the `groups` queues. */
  predicate HoldsEveryQueuedBatch(groups: seq<PersistentGroup>, lastIndexTimeMs: Option<int>, loadAll: (GroupId, BatchId) -> ServerLoad, queued: seq<QueuedBatch>)
  {
    forall i, q ::
      (0 <= i < |groups| && CatchUpGroup(groups[i], lastIndexTimeMs, loadAll).Success? &&
       q in CatchUpGroup(groups[i], lastIndexTimeMs, loadAll).value) ==> q in queued
  }

  /** The server refused to load the batches of one of the `groups`. */
  predicate SomeGroupNotAuthorized(groups: seq<PersistentGroup>, loadAll: (GroupId, BatchId) -> ServerLoad)
  {
    exists i :: 0 <= i < |groups| && |groups[i].eventBatchIds| > 0 &&
                loadAll(groups[i].groupId, StartId(groups[i].eventBatchIds)) == NotAuthorized
  }

  /** Every batch that a group's catch-up queues is among the collected batches. */
  lemma {:induction false} CollectBatchesComplete(groups: seq<PersistentGroup>, lastIndexTimeMs: Option<int>, loadAll: (GroupId, BatchId) -> ServerLoad)
    requires CollectBatches(groups, lastIndexTimeMs, loadAll).Success?
    ensures HoldsEveryQueuedBatch(groups, lastIndexTimeMs, loadAll, CollectBatches(groups, lastIndexTimeMs, loadAll).value)
    decreases |groups|
  {
    if |groups| > 0 {
      var first := CatchUpGroup(groups[0], lastIndexTimeMs, loadAll);
      var rest := CollectBatches(groups[1..], lastIndexTimeMs, loadAll);
      assert CollectBatches(groups, lastIndexTimeMs, loadAll) == Then(first, rest);
      CollectBatchesComplete(groups[1..], lastIndexTimeMs, loadAll);
      forall i, q | 0 <= i < |groups| && CatchUpGroup(groups[i], lastIndexTimeMs, loadAll).Success? &&
                    q in CatchUpGroup(groups[i], lastIndexTimeMs, loadAll).value
        ensures q in CollectBatches(groups, lastIndexTimeMs, loadAll).value
      {
        if i > 0 {
          assert groups[i] == groups[1..][i - 1];
        }
      }
    }
  }

  /**
   * A failed collection fails with the abort of the first group whose
   * catch-up fails: the groups before it collect successfully.
   */
  lemma {:induction false} CollectBatchesFirstFailure(groups: seq<PersistentGroup>, lastIndexTimeMs: Option<int>, loadAll: (GroupId, BatchId) -> ServerLoad)
    returns (i: nat)
    requires CollectBatches(groups, lastIndexTimeMs, loadAll).Failure?
    ensures i < |groups| && CatchUpGroup(groups[i], lastIndexTimeMs, loadAll) == CollectBatches(groups, lastIndexTimeMs, loadAll)
    ensures CollectBatches(groups[..i], lastIndexTimeMs, loadAll).Success?
    decreases |groups|
  {
    var first := CatchUpGroup(groups[0], lastIndexTimeMs, loadAll);
    var rest := CollectBatches(groups[1..], lastIndexTimeMs, loadAll);
    assert CollectBatches(groups, lastIndexTimeMs, loadAll) == Then(first, rest);
    if first.Failure? {
      i := 0;
      assert groups[..0] == [];
    } else {
      assert rest.Failure? && CollectBatches(groups, lastIndexTimeMs, loadAll) == rest;
      var j := CollectBatchesFirstFailure(groups[1..], lastIndexTimeMs, loadAll);
      i := j + 1;
      assert groups[i] == groups[1..][j];
      var prefix := groups[..i];
      assert prefix[0] == groups[0] && prefix[1..] == groups[1..][..j];
      assert CollectBatches(prefix, lastIndexTimeMs, loadAll)
          == Then(first, CollectBatches(groups[1..][..j], lastIndexTimeMs, loadAll));
    }
  }

  /**
   * Catching up: the staleness check comes first; then the missed batches of
   * all groups are loaded. Losing the permission on a group ends catch-up
   * quietly and without queueing anything; any other error is thrown on.
   * On success the collected batches are queued in one step, and the newest
   * queued id of each group is remembered for the realtime filter.
   */
  function LoadNewEntities(
    groups: seq<PersistentGroup>,
    lastIndexTimeMs: Option<int>,
    now: int,
    ttlDays: int,
    loadAll: (GroupId, BatchId) -> ServerLoad)
    : (r: CatchUpOutcome)
    ensures ThrowIfOutOfDate(lastIndexTimeMs, now, ttlDays).Failure? ==> r == CatchUpFailed(OutOfSync)
    ensures r.CaughtUp? ==> QueuedFrom(groups, r.queued)
    ensures r.CaughtUp? ==> QueuedByGroups(groups, lastIndexTimeMs, loadAll, r.queued)
    ensures r.CaughtUp? ==>
              && (forall j :: 0 <= j < |r.queued| ==> !NewerThanLoaded(r.initiallyLoaded, r.queued[j]))
              && (forall g :: g in r.initiallyLoaded ==> exists j :: 0 <= j < |r.queued| && r.queued[j].groupId == g)
    ensures r.CaughtUp? ==> IsLatestPerGroup(r.queued, r.initiallyLoaded)
    ensures r.CaughtUp? ==> HoldsEveryQueuedBatch(groups, lastIndexTimeMs, loadAll, r.queued)
    ensures r == LostPermission ==> SomeGroupNotAuthorized(groups, loadAll)
    ensures r.CaughtUp? <==>
              && ThrowIfOutOfDate(lastIndexTimeMs, now, ttlDays).Success?
              && forall i :: 0 <= i < |groups| ==> CatchUpGroup(groups[i], lastIndexTimeMs, loadAll).Success?
  {
    if ThrowIfOutOfDate(lastIndexTimeMs, now, ttlDays).Failure? then CatchUpFailed(OutOfSync)
    else
      match CollectBatches(groups, lastIndexTimeMs, loadAll)
      case Success(queued) =>
        LatestQueuedIsLatest(queued);
        LatestPerGroupNothingNewer(queued, LatestQueued(queued));
        CollectBatchesComplete(groups, lastIndexTimeMs, loadAll);
        CaughtUp(queued, LatestQueued(queued))
      case Failure(PermissionLost) =>
        assert SomeGroupNotAuthorized(groups, loadAll) by {
          var i := CollectBatchesFirstFailure(groups, lastIndexTimeMs, loadAll);
          assert CatchUpGroup(groups[i], lastIndexTimeMs, loadAll) == Failure(PermissionLost);
        }
        LostPermission
      case Failure(Raised(e)) => CatchUpFailed(e)
  }

  // ---------------------------------------------------------------------
  // Properties
  // ---------------------------------------------------------------------

  /** A realtime batch newer than everything catch-up queued for its group is forwarded. */
  lemma RealtimeForwardsNewer(queued: seq<QueuedBatch>, next: QueuedBatch)
    requires forall j :: 0 <= j < |queued| && queued[j].groupId == next.groupId ==> BatchLess(queued[j].batchId, next.batchId)
    ensures ForwardRealtime(LatestQueued(queued), [], next) == [next]
  {
    var m := LatestQueued(queued);
    LatestQueuedIsLatest(queued);
    if next.groupId in m {
      var j :| 0 <= j < |queued| && queued[j].groupId == next.groupId && queued[j].batchId == m[next.groupId];
    }
  }

  /** A realtime batch that catch-up already queued, or an older one of the same group, is dropped. */
  lemma RealtimeDropsLoaded(queued: seq<QueuedBatch>, j: int, next: QueuedBatch)
    requires 0 <= j < |queued|
    requires next.groupId == queued[j].groupId
    requires !BatchLess(queued[j].batchId, next.batchId)
    ensures ForwardRealtime(LatestQueued(queued), [], next) == []
  {
    var m := LatestQueued(queued);
    LatestQueuedIsLatest(queued);
    assert queued[j].batchId == m[next.groupId] || BatchLess(queued[j].batchId, m[next.groupId]);
  }

  /** The gap is detected for a group whose reloaded batches would all be queued when no index time is stored. */
  lemma GapRaisesOutOfSync(group: PersistentGroup, now: int, ttlDays: int, loadAll: (GroupId, BatchId) -> ServerLoad)
    requires |group.eventBatchIds| > 0
    requires loadAll(group.groupId, StartId(group.eventBatchIds)).Loaded?
    requires var onServer := loadAll(group.groupId, StartId(group.eventBatchIds)).batches;
             forall i :: 0 <= i < |onServer| ==> ShouldQueue(group.eventBatchIds, StartId(group.eventBatchIds), onServer[i].id)
    ensures LoadNewEntities([group], None, now, ttlDays, loadAll) == CatchUpFailed(OutOfSync)
  {
    assert CollectBatches([group], None, loadAll) == Failure(Raised(OutOfSync));
  }

  /** With an index time stored, a group whose reloaded batches are all new is queued in full. */
  lemma NoGapCheckWithIndexTime(group: PersistentGroup, last: int, now: int, ttlDays: int, loadAll: (GroupId, BatchId) -> ServerLoad)
    requires |group.eventBatchIds| > 0
    requires now - last < DaysToMillis(ttlDays)
    requires loadAll(group.groupId, StartId(group.eventBatchIds)).Loaded?
    requires var onServer := loadAll(group.groupId, StartId(group.eventBatchIds)).batches;
             forall i :: 0 <= i < |onServer| ==> ShouldQueue(group.eventBatchIds, StartId(group.eventBatchIds), onServer[i].id)
    ensures var r := LoadNewEntities([group], Some(last), now, ttlDays, loadAll);
            r.CaughtUp? && |r.queued| == |loadAll(group.groupId, StartId(group.eventBatchIds)).batches|
  {
    var onServer := loadAll(group.groupId, StartId(group.eventBatchIds)).batches;
    var toQueue := BatchesToQueue(group.groupId, group.eventBatchIds, StartId(group.eventBatchIds), onServer);
    assert CatchUpGroup(group, Some(last), loadAll) == Success(toQueue);
    assert CollectBatches([group], Some(last), loadAll) == Success(toQueue + []);
  }

  /** Loading `before + after` is loading `before` and then `after`, stopping at the first abort. */
  lemma {:induction false} CollectAppend(
    before: seq<PersistentGroup>, after: seq<PersistentGroup>,
    lastIndexTimeMs: Option<int>, loadAll: (GroupId, BatchId) -> ServerLoad)
    ensures CollectBatches(before + after, lastIndexTimeMs, loadAll) ==
            Then(CollectBatches(before, lastIndexTimeMs, loadAll), CollectBatches(after, lastIndexTimeMs, loadAll))
    decreases |before|
  {
    if |before| == 0 {
      assert before + after == after;
      var rest := CollectBatches(after, lastIndexTimeMs, loadAll);
      if rest.Success? {
        assert [] + rest.value == rest.value;
      }
    } else {
      var all := before + after;
      assert all[1..] == before[1..] + after;
      assert all[0] == before[0];
      CollectAppend(before[1..], after, lastIndexTimeMs, loadAll);
      var g := CatchUpGroup(before[0], lastIndexTimeMs, loadAll);
      var mid := CollectBatches(before[1..], lastIndexTimeMs, loadAll);
      var rest := CollectBatches(after, lastIndexTimeMs, loadAll);
      assert CollectBatches(all, lastIndexTimeMs, loadAll) == Then(g, CollectBatches(all[1..], lastIndexTimeMs, loadAll));
      assert CollectBatches(before, lastIndexTimeMs, loadAll) == Then(g, mid);
      ThenAssociative(g, mid, rest);
    }
  }

  /**
   * Losing the permission on a group discards the batches collected for the
   * groups loaded before it: catch-up ends without queueing anything.
   */
  lemma NotAuthorizedDiscardsEverything(
    before: seq<PersistentGroup>, group: PersistentGroup, after: seq<PersistentGroup>,
    lastIndexTimeMs: Option<int>, now: int, ttlDays: int, loadAll: (GroupId, BatchId) -> ServerLoad)
    requires ThrowIfOutOfDate(lastIndexTimeMs, now, ttlDays).Success?
    requires CollectBatches(before, lastIndexTimeMs, loadAll).Success?
    requires |group.eventBatchIds| > 0
    requires loadAll(group.groupId, StartId(group.eventBatchIds)) == NotAuthorized
    ensures LoadNewEntities(before + [group] + after, lastIndexTimeMs, now, ttlDays, loadAll) == LostPermission
  {
    var tail := [group] + after;
    CollectAppend(before, tail, lastIndexTimeMs, loadAll);
    assert before + [group] + after == before + tail;
    assert tail[0] == group && tail[1..] == after;
    assert CatchUpGroup(group, lastIndexTimeMs, loadAll) == Failure(PermissionLost);
    assert CollectBatches(tail, lastIndexTimeMs, loadAll) == Failure(PermissionLost);
  }
}
