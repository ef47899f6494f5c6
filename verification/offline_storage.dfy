/**
 * The offline cache: entities stored by type and id, the loaded id range of
 * each list, and the id of the last entity event batch processed for each
 * group. Before an entity is written the type's cache handler hears
 * `onBeforeCacheUpdate`, and before one is deleted `onBeforeCacheDeletion`
 * with the deleted id: a plain id for element types, the (list id, element
 * id) pair for list and blob element types. Every operation returns the
 * handler calls it makes, in order, next to the new state.
 */
module OfflineStorage {
  import opened Results
  import opened Ids

  type GroupId = string
  type BatchId = string

  /** The entity types the cache distinguishes; every other type is `OtherType`. */
  datatype CacheType =
    | UserType
    | MailBoxType
    | MailFolderType
    | MailSetEntryType
    | MailType
    | MailDetailsBlobType
    | FileType
    | OtherType(name: string)

  /** The id of a stored entity: a plain element id, or a list id with an element id. */
  datatype EntityKey = ElementKey(id: ElementId) | ListKey(listId: ListId, elementId: ElementId)

  /** The kinds of mail folders. */
  datatype MailSetKind = Custom | Inbox | Sent | Trash | Archive | Spam | Draft | Label

  /** The fields of an entity the cache's own logic reads; everything else is opaque. */
  datatype Body =
    | MailBoxBody(folders: Option<ListId>)
    | MailFolderBody(entries: ListId, folderType: MailSetKind)
    | MailSetEntryBody(mail: EntityKey)
    | MailBody(mailDetails: Option<EntityKey>, attachments: seq<EntityKey>)
    | OpaqueBody

  datatype Entity = Entity(typ: CacheType, key: EntityKey, ownerGroup: Option<GroupId>, body: Body)

  datatype StoreKey = StoreKey(typ: CacheType, key: EntityKey)

  datatype RangeKey = RangeKey(typ: CacheType, listId: ListId)

  /** The ids between `lower` and `upper` of a list are all in the cache. */
  datatype Range = Range(lower: ElementId, upper: ElementId)

  datatype Store = Store(
    entities: map<StoreKey, Entity>,
    ranges: map<RangeKey, Range>,
    lastBatchIds: map<GroupId, BatchId>)

  /** A call the storage makes on a type's custom cache handler. */
  datatype HookCall =
    | BeforeCacheUpdate(entity: Entity)
    | BeforeCacheDeletion(typ: CacheType, id: EntityKey)

  datatype Outcome = Outcome(store: Store, calls: seq<HookCall>)

  /** Every entity is stored under its own type and id. */
  predicate WellFormed(s: Store)
  {
    forall k :: k in s.entities ==> s.entities[k].typ == k.typ && s.entities[k].key == k.key
  }

  /** The key addressed by an optional list id and an element id. */
  function KeyOf(listId: Option<ListId>, id: ElementId): (k: EntityKey)
    ensures listId.None? ==> k == ElementKey(id)
    ensures listId.Some? ==> k == ListKey(listId.value, id)
  {
    match listId
    case None => ElementKey(id)
    case Some(l) => ListKey(l, id)
  }

  /** A cache holding nothing. */
  function EmptyStore(): (s: Store)
    ensures WellFormed(s) && s.entities == map[] && s.ranges == map[] && s.lastBatchIds == map[]
  {
    Store(map[], map[], map[])
  }

  // ----- Entities -----

  /** Stores an entity under its type and id, replacing any earlier version, after telling its handler. */
  function Put(s: Store, e: Entity): (o: Outcome)
    ensures StoreKey(e.typ, e.key) in o.store.entities && o.store.entities[StoreKey(e.typ, e.key)] == e
    ensures o.store.entities.Keys == s.entities.Keys + {StoreKey(e.typ, e.key)}
    ensures forall k :: k in s.entities && k != StoreKey(e.typ, e.key) ==> o.store.entities[k] == s.entities[k]
    ensures o.store.ranges == s.ranges && o.store.lastBatchIds == s.lastBatchIds
    ensures o.calls == [BeforeCacheUpdate(e)]
    ensures WellFormed(s) ==> WellFormed(o.store)
  {
    Outcome(s.(entities := s.entities[StoreKey(e.typ, e.key) := e]), [BeforeCacheUpdate(e)])
  }

  /** The stored entity of the type with the given id, if any. */
  function Get(s: Store, t: CacheType, listId: Option<ListId>, id: ElementId): (r: Option<Entity>)
    ensures r.Some? <==> StoreKey(t, KeyOf(listId, id)) in s.entities
    ensures r.Some? ==> r.value == s.entities[StoreKey(t, KeyOf(listId, id))]
    ensures WellFormed(s) && r.Some? ==> r.value.typ == t && r.value.key == KeyOf(listId, id)
  {
    var k := StoreKey(t, KeyOf(listId, id));
    if k in s.entities then Some(s.entities[k]) else None
  }

  /**
   * Reference definition of `ProvideMultiple`: the stored entities among the
   * requested ids of one list, in request order, skipping missing ids.
   */
  function Provided(s: Store, t: CacheType, listId: ListId, ids: seq<ElementId>): seq<Entity>
  {
    if |ids| == 0 then []
    else
      var rest := Provided(s, t, listId, ids[..|ids| - 1]);
      match Get(s, t, Some(listId), ids[|ids| - 1])
      case None => rest
      case Some(e) => rest + [e]
  }

  /** Loads the stored entities among `ids` of a list, in request order. */
  method ProvideMultiple(s: Store, t: CacheType, listId: ListId, ids: seq<ElementId>) returns (r: seq<Entity>)
    ensures r == Provided(s, t, listId, ids)
    ensures |r| <= |ids|
  {
    r := [];
    var i := 0;
    while i < |ids|
      invariant i <= |ids|
      invariant r == Provided(s, t, listId, ids[..i])
      invariant |r| <= i
    {
      assert ids[..i + 1][..i] == ids[..i];
      var found := Get(s, t, Some(listId), ids[i]);
      if found.Some? {
        r := r + [found.value];
      }
      i := i + 1;
    }
    assert ids[..|ids|] == ids;
  }

  /** Every provided entity is stored under one of the requested ids. */
  lemma {:induction false} ProvidedAreStoredAndRequested(s: Store, t: CacheType, listId: ListId, ids: seq<ElementId>, j: nat)
    requires j < |Provided(s, t, listId, ids)|
    ensures exists i :: 0 <= i < |ids| && Get(s, t, Some(listId), ids[i]) == Some(Provided(s, t, listId, ids)[j])
  {
    var rest := Provided(s, t, listId, ids[..|ids| - 1]);
    if j < |rest| {
      ProvidedAreStoredAndRequested(s, t, listId, ids[..|ids| - 1], j);
      var i :| 0 <= i < |ids| - 1 && Get(s, t, Some(listId), ids[..|ids| - 1][i]) == Some(rest[j]);
      assert ids[..|ids| - 1][i] == ids[i];
    } else {
      assert Get(s, t, Some(listId), ids[|ids| - 1]) == Some(Provided(s, t, listId, ids)[j]);
    }
  }

  /** Every stored requested entity is provided. */
  lemma {:induction false} StoredRequestedAreProvided(s: Store, t: CacheType, listId: ListId, ids: seq<ElementId>, i: nat)
    requires i < |ids| && Get(s, t, Some(listId), ids[i]).Some?
    ensures Get(s, t, Some(listId), ids[i]).value in Provided(s, t, listId, ids)
  {
    if i < |ids| - 1 {
      assert ids[..|ids| - 1][i] == ids[i];
      StoredRequestedAreProvided(s, t, listId, ids[..|ids| - 1], i);
    }
  }

  /** When every requested id is stored, the entities come back one per id, in order. */
  lemma {:induction false} ProvidedAllPresent(s: Store, t: CacheType, listId: ListId, ids: seq<ElementId>)
    requires forall i :: 0 <= i < |ids| ==> Get(s, t, Some(listId), ids[i]).Some?
    ensures |Provided(s, t, listId, ids)| == |ids|
    ensures forall i :: 0 <= i < |ids| ==> Provided(s, t, listId, ids)[i] == Get(s, t, Some(listId), ids[i]).value
  {
    if |ids| > 0 {
      var prefix := ids[..|ids| - 1];
      forall i | 0 <= i < |prefix| ensures Get(s, t, Some(listId), prefix[i]).Some? {
        assert prefix[i] == ids[i];
      }
      ProvidedAllPresent(s, t, listId, prefix);
    }
  }

  /** Nothing is provided from a cache that holds none of the requested ids. */
  lemma {:induction false} ProvidedNonePresent(s: Store, t: CacheType, listId: ListId, ids: seq<ElementId>)
    requires forall i :: 0 <= i < |ids| ==> Get(s, t, Some(listId), ids[i]).None?
    ensures Provided(s, t, listId, ids) == []
  {
    if |ids| > 0 {
      var prefix := ids[..|ids| - 1];
      forall i | 0 <= i < |prefix| ensures Get(s, t, Some(listId), prefix[i]).None? {
        assert prefix[i] == ids[i];
      }
      ProvidedNonePresent(s, t, listId, prefix);
    }
  }

  /** The list id part of a key, absent for element keys. */
  function ListIdOf(k: EntityKey): (r: Option<ListId>)
    ensures r.Some? <==> k.ListKey?
  {
    match k
    case ElementKey(_) => None
    case ListKey(l, _) => Some(l)
  }

  /** The element id part of a key. */
  function ElementIdOf(k: EntityKey): ElementId
  {
    match k
    case ElementKey(id) => id
    case ListKey(_, id) => id
  }

  /** A key is recovered from its list id part and its element id part. */
  lemma KeyOfParts(k: EntityKey)
    ensures KeyOf(ListIdOf(k), ElementIdOf(k)) == k
  {
  }

  /** Nothing can be read from an empty cache. */
  lemma GetFromEmpty(t: CacheType, listId: Option<ListId>, id: ElementId)
    ensures Get(EmptyStore(), t, listId, id).None?
  {
  }

  /** Reading an entity back after putting it yields that entity. */
  lemma GetAfterPut(s: Store, e: Entity)
    ensures Get(Put(s, e).store, e.typ, ListIdOf(e.key), ElementIdOf(e.key)) == Some(e)
  {
    KeyOfParts(e.key);
  }

  /** Putting one entity does not change what is read under any other type or id. */
  lemma GetAfterPutOther(s: Store, e: Entity, t: CacheType, listId: Option<ListId>, id: ElementId)
    requires StoreKey(t, KeyOf(listId, id)) != StoreKey(e.typ, e.key)
    ensures Get(Put(s, e).store, t, listId, id) == Get(s, t, listId, id)
  {
  }

  /** Removes one entity, if it is there, after telling its handler the deleted id. */
  function DeleteIfExists(s: Store, t: CacheType, listId: Option<ListId>, id: ElementId): (o: Outcome)
    ensures Get(o.store, t, listId, id).None?
    ensures o.store.entities.Keys == s.entities.Keys - {StoreKey(t, KeyOf(listId, id))}
    ensures forall k :: k in o.store.entities ==> o.store.entities[k] == s.entities[k]
    ensures o.store.ranges == s.ranges && o.store.lastBatchIds == s.lastBatchIds
    ensures o.calls == [BeforeCacheDeletion(t, KeyOf(listId, id))]
  {
    var k := StoreKey(t, KeyOf(listId, id));
    Outcome(s.(entities := s.entities - {k}), [BeforeCacheDeletion(t, k.key)])
  }

  /** Removes the given elements of one list, telling the handler each deleted id in request order. */
  function DeleteIn(s: Store, t: CacheType, listId: ListId, ids: seq<ElementId>): (o: Outcome)
    ensures forall i :: 0 <= i < |ids| ==> Get(o.store, t, Some(listId), ids[i]).None?
    ensures forall k :: k in s.entities && !(k.typ == t && k.key.ListKey? && k.key.listId == listId && k.key.elementId in ids)
              ==> k in o.store.entities && o.store.entities[k] == s.entities[k]
    ensures o.store.entities.Keys <= s.entities.Keys
    ensures o.store.ranges == s.ranges && o.store.lastBatchIds == s.lastBatchIds
    ensures |o.calls| == |ids|
    ensures forall i :: 0 <= i < |ids| ==> o.calls[i] == BeforeCacheDeletion(t, ListKey(listId, ids[i]))
  {
    var doomed := set i | 0 <= i < |ids| :: StoreKey(t, ListKey(listId, ids[i]));
    Outcome(
      s.(entities := s.entities - doomed),
      seq(|ids|, i requires 0 <= i < |ids| => BeforeCacheDeletion(t, ListKey(listId, ids[i]))))
  }

  /**
   * Removes the entities under the `doomed` keys, telling the handler of
   * each one's type its id. The keys are visited in no particular order.
   */
  method DeleteKeys(entities: map<StoreKey, Entity>, doomed: set<StoreKey>)
    returns (remaining: map<StoreKey, Entity>, calls: seq<HookCall>)
    requires doomed <= entities.Keys
    ensures remaining == entities - doomed
    ensures |calls| == |doomed|
    ensures forall i :: 0 <= i < |calls| ==>
              calls[i].BeforeCacheDeletion? && StoreKey(calls[i].typ, calls[i].id) in doomed
    ensures forall k :: k in doomed ==> BeforeCacheDeletion(k.typ, k.key) in calls
  {
    var todo := doomed;
    remaining := entities;
    calls := [];
    while todo != {}
      invariant todo <= doomed
      invariant remaining == entities - (doomed - todo)
      invariant |calls| == |doomed - todo|
      invariant forall i :: 0 <= i < |calls| ==>
                  calls[i].BeforeCacheDeletion? && StoreKey(calls[i].typ, calls[i].id) in doomed - todo
      invariant forall k :: k in doomed - todo ==> BeforeCacheDeletion(k.typ, k.key) in calls
      decreases |todo|
    {
      var k :| k in todo;
      assert doomed - (todo - {k}) == (doomed - todo) + {k};
      calls := calls + [BeforeCacheDeletion(k.typ, k.key)];
      remaining := remaining - {k};
      todo := todo - {k};
    }
  }

  /** The stored keys of entities of type `t`. */
  function KeysOfType(s: Store, t: CacheType): set<StoreKey>
  {
    set k | k in s.entities && k.typ == t
  }

  /**
   * Removes every entity of type `t`, telling the handler each deleted id,
   * and forgets the ranges of all lists of that type.
   */
  method DeleteAllOfType(s: Store, t: CacheType) returns (o: Outcome)
    ensures forall k :: k in o.store.entities ==> k.typ != t
    ensures forall k :: k in s.entities && k.typ != t ==> k in o.store.entities && o.store.entities[k] == s.entities[k]
    ensures o.store.entities.Keys <= s.entities.Keys
    ensures forall rk :: rk in o.store.ranges ==> rk.typ != t
    ensures forall rk :: rk in s.ranges && rk.typ != t ==> rk in o.store.ranges && o.store.ranges[rk] == s.ranges[rk]
    ensures o.store.ranges.Keys <= s.ranges.Keys
    ensures o.store.lastBatchIds == s.lastBatchIds
    ensures forall i :: 0 <= i < |o.calls| ==>
              (o.calls[i].BeforeCacheDeletion? && o.calls[i].typ == t && StoreKey(t, o.calls[i].id) in s.entities)
    ensures forall k :: k in s.entities && k.typ == t ==> BeforeCacheDeletion(t, k.key) in o.calls
    ensures |o.calls| == |KeysOfType(s, t)|
  {
    var remaining, calls := DeleteKeys(s.entities, KeysOfType(s, t));
    var ranges := map rk | rk in s.ranges && rk.typ != t :: s.ranges[rk];
    o := Outcome(Store(remaining, ranges, s.lastBatchIds), calls);
  }

  /** The stored keys of entities owned by group `g`. */
  function KeysOwnedBy(s: Store, g: GroupId): set<StoreKey>
  {
    set k | k in s.entities && s.entities[k].ownerGroup == Some(g)
  }

  /**
   * Removes every entity owned by group `g`, telling each type's handler the
   * deleted id, and forgets the group's last processed batch id.
   */
  method DeleteAllOwnedBy(s: Store, g: GroupId) returns (o: Outcome)
    ensures forall k :: k in o.store.entities ==> o.store.entities[k].ownerGroup != Some(g)
    ensures forall k :: k in s.entities && s.entities[k].ownerGroup != Some(g)
              ==> k in o.store.entities && o.store.entities[k] == s.entities[k]
    ensures o.store.entities.Keys <= s.entities.Keys
    ensures o.store.ranges == s.ranges
    ensures g !in o.store.lastBatchIds
    ensures forall h :: h != g ==> (h in o.store.lastBatchIds <==> h in s.lastBatchIds)
    ensures forall h :: h != g && h in s.lastBatchIds ==> o.store.lastBatchIds[h] == s.lastBatchIds[h]
    ensures forall i :: 0 <= i < |o.calls| ==>
              (o.calls[i].BeforeCacheDeletion?
               && StoreKey(o.calls[i].typ, o.calls[i].id) in s.entities
               && s.entities[StoreKey(o.calls[i].typ, o.calls[i].id)].ownerGroup == Some(g))
    ensures forall k :: k in s.entities && s.entities[k].ownerGroup == Some(g) ==> BeforeCacheDeletion(k.typ, k.key) in o.calls
    ensures |o.calls| == |KeysOwnedBy(s, g)|
  {
    var remaining, calls := DeleteKeys(s.entities, KeysOwnedBy(s, g));
    o := Outcome(Store(remaining, s.ranges, s.lastBatchIds - {g}), calls);
  }

  // ----- Ranges -----

  /** Records that the ids from `lower` to `upper` of a list are cached. */
  function SetNewRangeForList(s: Store, t: CacheType, listId: ListId, lower: ElementId, upper: ElementId): (r: Store)
    ensures RangeKey(t, listId) in r.ranges && r.ranges[RangeKey(t, listId)] == Range(lower, upper)
    ensures forall rk :: rk != RangeKey(t, listId) ==> (rk in r.ranges <==> rk in s.ranges)
    ensures forall rk :: rk != RangeKey(t, listId) && rk in s.ranges ==> r.ranges[rk] == s.ranges[rk]
    ensures r.entities == s.entities && r.lastBatchIds == s.lastBatchIds
  {
    s.(ranges := s.ranges[RangeKey(t, listId) := Range(lower, upper)])
  }

  /** The cached range of a list, if one is recorded. */
  function GetRangeForList(s: Store, t: CacheType, listId: ListId): (r: Option<Range>)
    ensures r.Some? <==> RangeKey(t, listId) in s.ranges
    ensures r.Some? ==> r.value == s.ranges[RangeKey(t, listId)]
  {
    if RangeKey(t, listId) in s.ranges then Some(s.ranges[RangeKey(t, listId)]) else None
  }

  /** Reading a list's range back after setting it yields exactly that range. */
  lemma RangeRoundTrip(s: Store, t: CacheType, listId: ListId, lower: ElementId, upper: ElementId)
    ensures GetRangeForList(SetNewRangeForList(s, t, listId, lower, upper), t, listId) == Some(Range(lower, upper))
  {
  }

  // ----- Last processed batch per group -----

  function PutLastBatchIdForGroup(s: Store, g: GroupId, b: BatchId): (r: Store)
    ensures g in r.lastBatchIds && r.lastBatchIds[g] == b
    ensures forall h :: h != g ==> (h in r.lastBatchIds <==> h in s.lastBatchIds)
    ensures forall h :: h != g && h in s.lastBatchIds ==> r.lastBatchIds[h] == s.lastBatchIds[h]
    ensures r.entities == s.entities && r.ranges == s.ranges
  {
    s.(lastBatchIds := s.lastBatchIds[g := b])
  }

  function GetLastBatchIdForGroup(s: Store, g: GroupId): (r: Option<BatchId>)
    ensures r.Some? <==> g in s.lastBatchIds
    ensures r.Some? ==> r.value == s.lastBatchIds[g]
  {
    if g in s.lastBatchIds then Some(s.lastBatchIds[g]) else None
  }

  /** Reading a group's batch id back after putting it yields that id; other groups keep theirs. */
  lemma LastBatchIdRoundTrip(s: Store, g: GroupId, b: BatchId, h: GroupId)
    ensures GetLastBatchIdForGroup(PutLastBatchIdForGroup(s, g, b), g) == Some(b)
    ensures h != g ==> GetLastBatchIdForGroup(PutLastBatchIdForGroup(s, g, b), h) == GetLastBatchIdForGroup(s, h)
  {
  }
}
