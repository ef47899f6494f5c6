# A Dafny model of the Tuta client core

This project models, in Dafny, the parts of the Tuta mail client that decide
what is cached, what is evicted, what is indexed and how entity types are
described:

- **Offline storage** (`offline_storage.dfy`, `offline_eviction.dfy`,
  `ids.dfy`). The entity cache is an abstract store: entities by type and id,
  cached list ranges, and the last event batch id per group. The model covers
  the custom cache handler hooks, `provideMultiple`, the deletions, range and
  batch-id round trips, and `clearExcludedData`. That eviction removes mail
  set entries older than a cutoff, together with their mails, details blobs
  and attachment files, and shrinks or drops the affected ranges.
  Mail-set-entry ids are (receive date, mail id) pairs ordered
  lexicographically.
- **Search index catch-up** (`indexer_types.dfy`, `indexer_catchup.dfy`,
  `indexer_groups.dfy`, `indexer_processing.dfy`). This covers:
  - the start id for reloading missed entity event batches;
  - which reloaded batches are queued;
  - gap and staleness detection;
  - the realtime duplicate filter;
  - diffing the stored groups against the user's memberships;
  - group data for new groups;
  - reading back the remembered batch ids;
  - the guard and error handling of batch processing.
- **Metamodel and type-model registry** (`metamodel.dfy`, `decimal.dfy`,
  `type_model_provider.dfy`, `entity_types.dfy`). This covers type models and
  their invariants, and attribute lookups by id (parsed as `u64`) and by
  name. It also covers the encrypted flag, type identity, value-type
  defaults, the application names and their wire strings, the client/server
  registry, and the untyped and parsed instance shapes.
- **Missed notifications** (`missed_notification.dfy`): the notification
  session keys of an encrypted missed notification and its last processed id.
- **Test file client** (`test_file_client.dfy`): the SDK's in-memory file
  store.

Outcomes that the source signals by throwing or by returning `Err` are
`Result` values here. Database, REST, server clock and base64 decoding are
parameters.

Three behaviours of the code that are easy to misread:

- The reload start id lies a minute before the **newest** remembered batch,
  clamped to just before the oldest one.
- Losing the permission on one group during catch-up ends catch-up
  **without queueing anything**, including batches already collected for
  earlier groups; the other groups are not loaded on.
- The index counts as out of date when `now - last >= ttl`, so already at
  the end of the window.

## Model

| member | source | states |
|---|---|---|
| TestFileClient.PersistContent | tuta-sdk/rust/sdk/src/bindings/test_file_client.rs:11-15 | persisting always succeeds, stores the content under the name, adds only that name and keeps every other file |
| TestFileClient.ReadContent | tuta-sdk/rust/sdk/src/bindings/test_file_client.rs:17-23 | reading succeeds exactly for stored names, with the stored bytes, and reports NotFound otherwise |
| TestFileClient.ReadAfterPersist | tuta-sdk/rust/sdk/src/bindings/test_file_client.rs:11-23 | reading a name right after persisting it yields the persisted content |
| TestFileClient.ReadNeverPersisted | tuta-sdk/rust/sdk/src/bindings/test_file_client.rs:17-23 | a name never persisted reads as NotFound |
| TestFileClient.LastWriteWins | tuta-sdk/rust/sdk/src/bindings/test_file_client.rs:11-15 | persisting twice under one name equals persisting only the second content |
| TestFileClient.PersistFrame | tuta-sdk/rust/sdk/src/bindings/test_file_client.rs:11-23 | persisting one name does not change what any other name reads |
| Decimal.ToDecimal | tuta-sdk/rust/sdk/src/metamodel.rs:339-340 | the decimal text of an id is non-empty, all digits, without a leading zero, and denotes the id |
| Decimal.ParseU64 | tuta-sdk/rust/sdk/src/metamodel.rs:178-189 | the unsigned 64-bit parse of an attribute id rejects the empty text, and a parsed text starts with a digit or '+' |
| Decimal.ParseDigits | tuta-sdk/rust/sdk/src/metamodel.rs:182-187 | a non-empty digit string parses exactly when its value is below 2^64, and then to that value |
| Decimal.ParseRejectsOverflow | tuta-sdk/rust/sdk/src/metamodel.rs:182-187 | a digit string denoting 2^64 or more is rejected as overflowing |
| Decimal.ParseIgnoresPlus | tuta-sdk/rust/sdk/src/metamodel.rs:182-187 | a leading '+' before the digits does not change the parse |
| Decimal.ParseIgnoresLeadingZero | tuta-sdk/rust/sdk/src/metamodel.rs:182-187 | a leading zero before the digits does not change the parse |
| Decimal.ParseToDecimal | tuta-sdk/rust/sdk/src/metamodel.rs:339-340 | parsing the decimal text of any u64 id gives that id back |
| Decimal.ToDecimalInjective | tuta-sdk/rust/sdk/src/metamodel.rs:339-340 | distinct ids have distinct decimal texts |
| Decimal.ParseRejectsNonDigit | tuta-sdk/rust/sdk/src/metamodel.rs:178-189 | a text with a character other than a digit or a leading '+' is not an attribute id |
| Metamodel.MarkedEncryptedMissesAggregates | tuta-sdk/rust/sdk/src/metamodel.rs:163-176 | the marked flag agrees with the expectation of encrypted fields on every type that is not an aggregate; on an aggregate the two differ exactly when its flag differs from whether some value is encrypted |
| Metamodel.UnmarkedAggregateMayHoldEncrypted | tuta-sdk/rust/sdk/src/metamodel.rs:163-176 | an unmarked aggregate with an encrypted value is not marked encrypted, yet is expected to hold encrypted fields |
| Metamodel.IsEncrypted | tuta-sdk/rust/sdk/src/metamodel.rs:169-176 | an aggregate is encrypted iff some value is encrypted; any other type answers with its flag. The answer is `MayHoldEncrypted` |
| Metamodel.IsAttributeIdAssociation | tuta-sdk/rust/sdk/src/metamodel.rs:178-189 | an error iff the id does not parse as u64, otherwise whether the parsed id is an association |
| Metamodel.GetAttributeIdCardinality | tuta-sdk/rust/sdk/src/metamodel.rs:191-208 | succeeds iff the id parses and names an association, with that association's cardinality; an unparsable id is an invalid-id error |
| Metamodel.GetAssociationByAttributeId | tuta-sdk/rust/sdk/src/metamodel.rs:210-228 | succeeds iff the id parses and names an association, and returns exactly that association |
| Metamodel.AssociationTestOfDecimal | tuta-sdk/rust/sdk/src/metamodel.rs:178-189 | for the decimal text of an id, the association test is map membership |
| Metamodel.AssociationLookupOfDecimal | tuta-sdk/rust/sdk/src/metamodel.rs:210-228 | in a well-formed model, looking up the decimal text of an id finds the association carrying that id, if any |
| Metamodel.ValueIdHasNoCardinality | tuta-sdk/rust/sdk/src/metamodel.rs:191-208 | the id of a value that is no association yields an association-not-found error |
| Metamodel.GetAttributeIdByAttributeName | tuta-sdk/rust/sdk/src/metamodel.rs:230-254 | an error iff no value and no association has the name. Otherwise it returns an id of an attribute with that name, written as the canonical decimal text of that id (no sign, no leading zero), and that attribute is a value whenever some value has the name |
| Metamodel.IsSameTypeIffOwnRef | tuta-sdk/rust/sdk/src/metamodel.rs:256-266 | a type is the same type as a reference exactly when that is its own reference |
| Metamodel.IsSameTypeSymmetric | tuta-sdk/rust/sdk/src/metamodel.rs:256-258 | type sameness through references is symmetric |
| Metamodel.GetDefault | tuta-sdk/rust/sdk/src/metamodel.rs:42-53 | fails exactly for the two id types; otherwise it is a value of the type's kind that is empty |
| Metamodel.DefaultIsUnique | tuta-sdk/rust/sdk/src/metamodel.rs:42-53 | the empty value of a type's kind is its default, so the default is the only such value |
| Metamodel.AppNameToString | tuta-sdk/rust/sdk/src/metamodel.rs:320-337 | an application's wire name is a non-empty lower-case string |
| Metamodel.AppNameFromString | tuta-sdk/rust/sdk/src/metamodel.rs:299-318 | a parsed application prints back as the parsed string; any failure carries the string |
| Metamodel.AppNameRoundTrip | tuta-sdk/rust/sdk/src/metamodel.rs:299-337 | parsing an application's wire name gives that application |
| Metamodel.AppNameFromOtherString | tuta-sdk/rust/sdk/src/metamodel.rs:299-318 | a string that is no application's wire name is rejected |
| Metamodel.AppNameToStringInjective | tuta-sdk/rust/sdk/src/metamodel.rs:320-337 | distinct applications have distinct wire names |
| TypeModelProvider.ReadTypeModels | tuta-sdk/rust/sdk/src/type_model_provider.rs:18-31 | the registry holds exactly the loaded applications, each with its last loaded models |
| TypeModelProvider.FreshProviderResolvesLoaded | tuta-sdk/rust/sdk/src/type_model_provider.rs:57-77 | a fresh provider over the loaded registry resolves a reference, on the client and on the server side alike, to the model the last load of its application holds under that id, and to nothing when that load lacks it |
| TypeModelProvider.ResolveClientTypeRef | tuta-sdk/rust/sdk/src/type_model_provider.rs:69-72 | resolves iff the application is registered and holds the type id, to the stored model |
| TypeModelProvider.ResolveServerTypeRef | tuta-sdk/rust/sdk/src/type_model_provider.rs:74-77 | server resolution consults the client models and agrees with client resolution |
| TypeModelProvider.FreshProviderUnknownApp | tuta-sdk/rust/sdk/src/type_model_provider.rs:57-77 | a fresh provider resolves no reference into an application that was never loaded, on either side |
| TypeModelProvider.ClientAppsAreAppNames | tuta-sdk/rust/sdk/src/type_model_provider.rs:34-46 | every shipped application key parses as an application name |
| TypeModelProvider.ClientRegistryKeysAreAppNames | tuta-sdk/rust/sdk/src/type_model_provider.rs:18-46 | the registry built from the shipped applications has only application names as keys |
| TypeModelProvider.ResolveOwnTypeRef | tuta-sdk/rust/sdk/src/type_model_provider.rs:69-72 | a model stored under its application's wire name and its id is what its own reference resolves to |
| EntityTypes.SideOfSeparator | src/common/api/common/EntityTypes.ts:161-165 | only 1 and 2 are separators, and each reads back as the side it brands |
| EntityTypes.SeparatorRoundTrip | src/common/api/common/EntityTypes.ts:161-165 | a side's separator reads back as that side |
| EntityTypes.SeparatorsDiffer | src/common/api/common/EntityTypes.ts:161-165 | client and server separators differ |
| MissedNotification.GetNotificationSessionKeys | src/common/native/common/EncryptedMissedNotification.ts:30-51 | empty iff no alarm carries keys; otherwise the converted keys of the first alarm with keys, in order. Each converted key takes the first push identifier, none for an empty list, and the decoded encrypted session key |
| MissedNotification.FirstWithKeysUnique | src/common/native/common/EncryptedMissedNotification.ts:30-51 | the first alarm with keys is unique |
| Ids.ConstructMailSetEntryId | test/tests/api/worker/offline/OfflineStorageTest.ts:66-69 | an entry id lies strictly between the least and greatest custom ids |
| Ids.DeconstructConstruct | test/tests/api/worker/offline/OfflineStorageTest.ts:66-69 | deconstructing a constructed entry id gives back its receive date and mail id |
| Ids.ConstructDeconstruct | test/tests/api/worker/offline/OfflineStorageTest.ts:66-69 | constructing from an entry id's parts gives that id |
| Ids.CutoffId | test/tests/api/worker/offline/OfflineStorageTest.ts:94-97 | the cutoff id is an entry id of the cutoff date |
| Ids.BeforeCutoffIffEarlier | test/tests/api/worker/offline/OfflineStorageTest.ts:94-97 | an entry sorts before the cutoff iff it was received on or before the cutoff date |
| Ids.IncrementMailSetEntryId | test/tests/api/worker/offline/OfflineStorageTest.ts:66-69 | the incremented id has the shifted date and the new mail id, and sorts after the original for a positive shift |
| OfflineStorage.Put | test/tests/api/worker/offline/OfflineStorageTest.ts:219-227 | put stores the entity under its type and key, keeps everything else, and calls the handler once with the entity |
| OfflineStorage.Get | test/tests/api/worker/offline/OfflineStorageTest.ts:473-496 | get finds an entity exactly when one is stored under that type and key, and it is that entity |
| OfflineStorage.GetFromEmpty | test/tests/api/worker/offline/OfflineStorageTest.ts:473-496 | nothing is read from an empty cache |
| OfflineStorage.GetAfterPut | test/tests/api/worker/offline/OfflineStorageTest.ts:473-496 | an entity reads back after it is put |
| OfflineStorage.GetAfterPutOther | test/tests/api/worker/offline/OfflineStorageTest.ts:473-496 | putting one entity leaves every other read unchanged |
| OfflineStorage.KeyOfParts | test/tests/api/worker/offline/OfflineStorageTest.ts:131-170 | a key is recovered from its list id and element id parts |
| OfflineStorage.ProvideMultiple | test/tests/api/worker/offline/OfflineStorageTest.ts:398-420 | the provided entities are the stored ones among the requested ids, in request order |
| OfflineStorage.ProvidedAreStoredAndRequested | test/tests/api/worker/offline/OfflineStorageTest.ts:398-470 | every provided entity is stored under a requested id |
| OfflineStorage.StoredRequestedAreProvided | test/tests/api/worker/offline/OfflineStorageTest.ts:398-470 | every stored requested entity is provided |
| OfflineStorage.ProvidedAllPresent | test/tests/api/worker/offline/OfflineStorageTest.ts:448-470 | with every requested id stored, one entity per id comes back, in order |
| OfflineStorage.ProvidedNonePresent | test/tests/api/worker/offline/OfflineStorageTest.ts:398-410 | with none of the requested ids stored, nothing is provided |
| OfflineStorage.DeleteIfExists | test/tests/api/worker/offline/OfflineStorageTest.ts:229-239 | the entity is gone, nothing else changes, and the handler is told the deleted id |
| OfflineStorage.DeleteIn | test/tests/api/worker/offline/OfflineStorageTest.ts:335-346 | the listed elements are gone, the others stay, and the handler is called once per id in order |
| OfflineStorage.DeleteKeys | test/tests/api/worker/offline/OfflineStorageTest.ts:241-346 | removes exactly the doomed keys and calls the handler exactly once per doomed key |
| OfflineStorage.DeleteAllOfType | test/tests/api/worker/offline/OfflineStorageTest.ts:241-281 | no entity or range of the type remains; other types are untouched; the handler is called for every deleted entity |
| OfflineStorage.DeleteAllOwnedBy | test/tests/api/worker/offline/OfflineStorageTest.ts:283-333 | no entity of the group remains, others are untouched, the group's last batch id is removed, other groups keep theirs |
| OfflineStorage.SetNewRangeForList | test/tests/api/worker/offline/OfflineStorageTest.ts:373-396 | records the range of one list and changes no other range and no entity |
| OfflineStorage.GetRangeForList | test/tests/api/worker/offline/OfflineStorageTest.ts:373-396 | the range is found exactly when one is recorded for the list |
| OfflineStorage.RangeRoundTrip | test/tests/api/worker/offline/OfflineStorageTest.ts:373-446 | a range reads back after it is set |
| OfflineStorage.PutLastBatchIdForGroup | test/tests/api/worker/offline/OfflineStorageTest.ts:325-333 | records the group's batch id and changes no other group |
| OfflineStorage.GetLastBatchIdForGroup | test/tests/api/worker/offline/OfflineStorageTest.ts:325-333 | the batch id is found exactly when one is recorded for the group |
| OfflineStorage.LastBatchIdRoundTrip | test/tests/api/worker/offline/OfflineStorageTest.ts:325-333 | a batch id reads back after it is put; other groups keep theirs |
| OfflineEviction.AdjustRange | test/tests/api/worker/offline/OfflineStorageTest.ts:555-774 | a range starting at or after the cutoff is kept; one wholly before it is dropped; one across it starts at the cutoff. A complete range without older entries is kept |
| OfflineEviction.ClearExcludedData | test/tests/api/worker/offline/OfflineStorageTest.ts:776-1044 | only entries older than the cutoff and their descendants are removed. An entry goes iff it is old, the mail of an old entry goes, and other mails, other types and batch ids are kept. A details blob or file goes iff it belongs to a doomed mail. A range of another list is kept as it is; an entry list's range is present iff its adjustment keeps it, and then equals the adjusted range |
| OfflineEviction.CascadeToDetailsAndFiles | test/tests/api/worker/offline/OfflineStorageTest.ts:1046-1117 | a mail removed with its entry takes its details blob and attachment files along |
| OfflineEviction.RangeBeforeCutoffDropped | test/tests/api/worker/offline/OfflineStorageTest.ts:555-600 | an entry-list range wholly before the cutoff is dropped |
| OfflineEviction.RangeAcrossCutoffShrunk | test/tests/api/worker/offline/OfflineStorageTest.ts:601-630 | an entry-list range across the cutoff now starts at the cutoff |
| OfflineEviction.RangeAfterCutoffKept | test/tests/api/worker/offline/OfflineStorageTest.ts:631-659 | a range starting at or after the cutoff is unchanged |
| OfflineEviction.CompleteRangeKeptWithoutOlderEntries | test/tests/api/worker/offline/OfflineStorageTest.ts:660-715 | a complete range without entries older than the cutoff is unchanged |
| OfflineEviction.CompleteRangeShrunkWithOlderEntries | test/tests/api/worker/offline/OfflineStorageTest.ts:716-774 | a complete range with an older entry now starts at the cutoff |
| OfflineEviction.EntryListsKept | test/tests/api/worker/offline/OfflineStorageTest.ts:908-1044 | mailboxes and folders survive, so the entry lists are the same after eviction |
| OfflineEviction.ClearExcludedDataIdempotent | test/tests/api/worker/offline/OfflineStorageTest.ts:1352-1363 | an invariant of the model: the state one clearing leaves is unchanged by a second clearing with the same cutoff, consistent with the post-state checked after the single clearing |
| IndexerTypes.TimestampToGeneratedId | src/mail-app/workerUtils/index/IndexedDbIndexer.ts:584-590 | the generated id of a millisecond has that timestamp and is the least id of it |
| IndexerCatchUp.ForwardRealtime | src/mail-app/workerUtils/index/IndexedDbIndexer.ts:129-139 | a realtime batch is appended to the main queue iff its group has no loaded id or it is newer than it, and is dropped otherwise |
| IndexerCatchUp.StartId | src/mail-app/workerUtils/index/IndexedDbIndexer.ts:579-593 | reloading starts below the oldest remembered batch iff the minute window does not lie above it. Then every batch of the oldest batch's millisecond is reloaded; otherwise it starts at the window. When clamped, it is the least id of the millisecond before the oldest batch, above every id of an earlier millisecond. It is below the newest id |
| IndexerCatchUp.BatchesToQueue | src/mail-app/workerUtils/index/IndexedDbIndexer.ts:514-531 | exactly the server batches not remembered and after the start id are queued, under the group; all are queued iff all qualify |
| IndexerCatchUp.BatchesToQueueKeepsOrder | src/mail-app/workerUtils/index/IndexedDbIndexer.ts:514-531 | the queued batches of a group keep the order of the server's answer |
| IndexerCatchUp.LatestQueuedIsLatest | src/mail-app/workerUtils/index/IndexedDbIndexer.ts:525-529 | the loaded id of a group is the newest queued batch of that group; groups without queued batches have none |
| IndexerCatchUp.ThrowIfOutOfDate | src/mail-app/workerUtils/index/IndexedDbIndexer.ts:686-703 | out of sync iff a last index time is stored and at least the TTL has passed since it |
| IndexerCatchUp.CatchUpGroup | src/mail-app/workerUtils/index/IndexedDbIndexer.ts:509-564 | a group without remembered batches is skipped. Queued batches qualify and are batches of the server's answer with their events, permission loss is exactly a NotAuthorized answer, a failed load fails the group with an error, and a gap is raised only without an index time |
| IndexerCatchUp.CatchUpGroupQueuesEveryNewBatch | src/mail-app/workerUtils/index/IndexedDbIndexer.ts:514-552 | when the server answers with batches, every unprocessed batch after the start id is queued; the gap error is raised exactly when no index time is stored and every answered batch is such a batch |
| IndexerCatchUp.CollectBatches | src/mail-app/workerUtils/index/IndexedDbIndexer.ts:508-565 | loading succeeds iff every group's loading succeeds, and every collected batch was reloaded for one of the groups: it is a batch that group's catch-up queues |
| IndexerCatchUp.CollectBatchesComplete | src/mail-app/workerUtils/index/IndexedDbIndexer.ts:508-565 | every batch that any group's catch-up queues is among the collected batches |
| IndexerCatchUp.CollectBatchesFirstFailure | src/mail-app/workerUtils/index/IndexedDbIndexer.ts:508-565 | a failed collection fails with the abort of the first group whose catch-up fails, all earlier groups having succeeded |
| IndexerCatchUp.LoadNewEntities | src/mail-app/workerUtils/index/IndexedDbIndexer.ts:495-577 | staleness fails first. Success holds iff not stale and every group loads. Then every queued batch is one some group's catch-up queues, and every batch each group's catch-up queues is queued; and the remembered ids are, per group with a queued batch, the newest queued id, so no queued batch passes the realtime filter. Lost permission means some group's load answered NotAuthorized |
| IndexerCatchUp.RealtimeForwardsNewer | src/mail-app/workerUtils/index/IndexedDbIndexer.ts:129-139 | a realtime batch newer than everything queued for its group is forwarded |
| IndexerCatchUp.RealtimeDropsLoaded | src/mail-app/workerUtils/index/IndexedDbIndexer.ts:129-139 | a realtime batch no newer than some queued batch of its group is dropped |
| IndexerCatchUp.GapRaisesOutOfSync | src/mail-app/workerUtils/index/IndexedDbIndexer.ts:533-552 | without an index time, a group whose reloaded batches would all be queued fails with out of sync |
| IndexerCatchUp.NoGapCheckWithIndexTime | src/mail-app/workerUtils/index/IndexedDbIndexer.ts:546-555 | with a fresh index time, such a group is caught up with all its batches queued |
| IndexerCatchUp.CollectAppend | src/mail-app/workerUtils/index/IndexedDbIndexer.ts:508-565 | loading concatenated group lists is loading one then the other, the first abort winning |
| IndexerCatchUp.NotAuthorizedDiscardsEverything | src/mail-app/workerUtils/index/IndexedDbIndexer.ts:557-568 | a NotAuthorized answer for any group ends catch-up with nothing queued, even after earlier groups succeeded |
| IndexerGroups.OldGroups | src/mail-app/workerUtils/index/IndexedDbIndexer.ts:371-385 | the stored groups are read row by row; a malformed row is an invalid-database error |
| IndexerGroups.DeletedGroups | src/mail-app/workerUtils/index/IndexedDbIndexer.ts:384 | a stored group is deleted iff no current membership has its id |
| IndexerGroups.NewGroups | src/mail-app/workerUtils/index/IndexedDbIndexer.ts:385 | a membership is new iff no stored group has its id |
| IndexerGroups.LoadGroupDiff | src/mail-app/workerUtils/index/IndexedDbIndexer.ts:344-393 | an invalid-database error iff the table is no list or a row is malformed. A group is deleted iff it is stored but not current, with the type its stored row records, and new iff it is current but not stored |
| IndexerGroups.GroupDiffDisjoint | src/mail-app/workerUtils/index/IndexedDbIndexer.ts:384-385 | no group is both deleted and new |
| IndexerGroups.UnchangedGroupsGiveEmptyDiff | src/mail-app/workerUtils/index/IndexedDbIndexer.ts:344-393 | when stored groups and memberships agree, the diff is empty |
| IndexerGroups.LoadGroupData | src/mail-app/workerUtils/index/IndexedDbIndexer.ts:439-479 | fails iff some selected membership's load fails. Each selected membership with a latest batch gets fresh group data, and permission losses are skipped |
| IndexerGroups.UpdateGroups | src/mail-app/workerUtils/index/IndexedDbIndexer.ts:400-432 | membership removed iff a deleted group is a mail or contact group. Otherwise it succeeds iff no new group's latest-batch load fails, and then exactly the new groups whose latest batch loaded get fresh data |
| IndexerGroups.InitGroupData | src/mail-app/workerUtils/index/IndexedDbIndexer.ts:482-493 | writing adds exactly the written groups and keeps the others' data; each written group holds the data of its last write |
| IndexerGroups.LoadPersistentGroupData | src/mail-app/workerUtils/index/IndexedDbIndexer.ts:598-622 | an invalid-database error iff some membership has no group data; otherwise each membership's remembered ids, in order |
| IndexerGroups.UpdatedGroupsArePersistent | src/mail-app/workerUtils/index/IndexedDbIndexer.ts:324-325 | after the diff is applied and new group data written, every membership has group data, provided every group's latest batch loaded |
| IndexerProcessing.ProcessEntityEvents | src/mail-app/workerUtils/index/IndexedDbIndexer.ts:624-649 | nothing happens iff the group is not an indexed membership; otherwise the mail indexer, then the contact indexer, then the batch id is written |
| IndexerProcessing.HandleProcessingError | src/mail-app/workerUtils/index/IndexedDbIndexer.ts:650-668 | cancellation and database errors after stopping are ignored, an invalid database recreates the index, and every other error is thrown on unchanged |

## Left out

- Persistence: SQL, cborg and base64Ext encoding, IndexedDB transactions and the database schema. The store is a set of maps.
- Encryption: key and iv handling, decryption of index metadata, the Ed25519 facades. These are foreign calls.
- The instance pipeline (type, crypto and model mappers): it composes mappers that are not part of this model.
- Event queues: pausing, resuming and scheduling, and promise chaining. The realtime queue is resumed for every batch received from the event bus, so "paused until catch-up" is not modelled as a guarantee.
- The mail and contact indexers, the info message handler, user entity updates and encryption metadata updates: steps name the calls made to them.
- Indexer initialisation (opening the database, creating or loading tables, recreating the index after errors, disabling mail indexing after an out-of-sync catch-up): it sequences I/O around the modelled decisions.
- Writing the server timestamp after catch-up: a database write of a clock reading.
- IndexerCatchUp.ThrowIfOutOfDate: the batch TTL in days is a parameter, because its constant's definition is not part of this model.
- IndexerGroups.LoadGroupData: the latest-batch request is asked for one batch; the model takes whatever ids the server answers. The nothing-indexed timestamp is a marker value, because its constant's definition is not part of this model.
- IndexerCatchUp.CatchUpGroup: any server failure other than NotAuthorized is a single error kind. An empty server answer without an index time counts as a gap, as in the code.
- Type-model JSON loading and the lazily initialised static registry: the parsed models are the input of `ReadTypeModels`.
- The two test-only applications of `AppName`: they exist only in test builds.
- Metamodel.GetDefault: the default date is a fixed millisecond value, because the date type's definition is not part of this model.
- Metamodel.GetAttributeIdByAttributeName: when several attributes of one kind share a name, the source's hash-map order picks one; the model leaves the choice open.
- Metamodel lookup errors are distinct error values; the source reports them as formatted strings.
- The lock around the test file client's map, and its poisoning: the map is passed and returned as a value.
- Attribute access by name on missed notifications: the model receives the attribute values directly.
- MissedNotification.LastProcessedNotificationId: with attribute access taken as done the getter is a field read, so its contract states nothing beyond the attribute's value.
- OfflineStorage.DeleteIn: the handler is called for every requested id, including ids that are not stored.
- OfflineStorage.DeleteIfExists: the handler is told the id whether or not the entity was stored.
- OfflineStorage.DeleteAllOwnedBy: ranges of the deleted group's lists are left unchanged.
- Ids.ConstructMailSetEntryId: receive dates are whole numbers; the source's rounding of dates inside the id is not modelled.
- UI, theming, ratings dialogs, iOS widget code, the native file client and the two database migrations: outside the modelled core.
