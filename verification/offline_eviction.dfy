/**
 * Eviction of mail data older than the cache's time range. Every folder of
 * every cached mailbox names the list holding its mail set entries. Entries
 * of those lists that sort before the cutoff id are deleted, together with
 * the mails they point to, those mails' details blobs and their attachment
 * files. The recorded ranges of the entry lists are shrunk to start at the
 * cutoff, or dropped when they lie wholly before it. Folder kind plays no
 * part: spam and trash use the same cutoff as every other folder.
 */
module OfflineEviction {
  import opened Results
  import opened Ids
  import opened OfflineStorage

  /** The lists of folders that cached mailboxes point to. */
  function FolderLists(s: Store): set<ListId>
  {
    set k | k in s.entities && k.typ == MailBoxType && s.entities[k].body.MailBoxBody?
                              && s.entities[k].body.folders.Some?
          :: s.entities[k].body.folders.value
  }

  /** The entry lists of the cached folders of cached mailboxes. */
  function EntryLists(s: Store): set<ListId>
  {
    set k | k in s.entities && k.typ == MailFolderType && k.key.ListKey? && k.key.listId in FolderLists(s)
                              && s.entities[k].body.MailFolderBody?
          :: s.entities[k].body.entries
  }

  /** `k` is a cached mail set entry of one of the mailboxes' entry lists that sorts before the cutoff. */
  predicate IsOldEntry(s: Store, cutoff: ElementId, k: StoreKey)
  {
    && k in s.entities
    && k.typ == MailSetEntryType
    && k.key.ListKey?
    && k.key.listId in EntryLists(s)
    && IdLess(k.key.elementId, cutoff)
  }

  function OldEntries(s: Store, cutoff: ElementId): set<StoreKey>
  {
    set k | k in s.entities && IsOldEntry(s, cutoff, k)
  }

  /** The mails that old entries point to. */
  function DoomedMails(s: Store, cutoff: ElementId): set<StoreKey>
  {
    set k | k in OldEntries(s, cutoff) && s.entities[k].body.MailSetEntryBody?
          :: StoreKey(MailType, s.entities[k].body.mail)
  }

  /** The details blobs of cached doomed mails. */
  function DoomedDetails(s: Store, cutoff: ElementId): set<StoreKey>
  {
    set m | m in DoomedMails(s, cutoff) && m in s.entities && s.entities[m].body.MailBody?
                                         && s.entities[m].body.mailDetails.Some?
          :: StoreKey(MailDetailsBlobType, s.entities[m].body.mailDetails.value)
  }

  /** The attachment files of cached doomed mails. */
  function DoomedFiles(s: Store, cutoff: ElementId): set<StoreKey>
  {
    set m, i | m in DoomedMails(s, cutoff) && m in s.entities && s.entities[m].body.MailBody?
                && 0 <= i < |s.entities[m].body.attachments|
             :: StoreKey(FileType, s.entities[m].body.attachments[i])
  }

  function Doomed(s: Store, cutoff: ElementId): set<StoreKey>
  {
    OldEntries(s, cutoff) + DoomedMails(s, cutoff) + DoomedDetails(s, cutoff) + DoomedFiles(s, cutoff)
  }

  /** Some cached entry of the list sorts before the cutoff. */
  predicate HasEntryBefore(s: Store, listId: ListId, cutoff: ElementId)
  {
    exists k :: k in s.entities && k.typ == MailSetEntryType && k.key.ListKey? && k.key.listId == listId
                && IdLess(k.key.elementId, cutoff)
  }

  /**
   * The new range of an entry list. A range that starts at the least custom
   * id is complete from the beginning; it is kept as it is unless some entry
   * would be deleted, so that the completeness is not lost. Otherwise a
   * range starting before the cutoff is dropped if it also ends before it,
   * and else made to start at the cutoff.
   */
  function AdjustRange(r: Range, cutoff: ElementId, hasEntryBefore: bool): (a: Option<Range>)
    ensures !IdLess(r.lower, cutoff) ==> a == Some(r)
    ensures IdLess(r.lower, cutoff) && IdLess(r.upper, cutoff) && (r.lower != CustomMin || hasEntryBefore) ==> a.None?
    ensures (IdLess(r.lower, cutoff) && !IdLess(r.upper, cutoff) && (r.lower != CustomMin || hasEntryBefore))
              ==> a == Some(Range(cutoff, r.upper))
    ensures r.lower == CustomMin && !hasEntryBefore ==> a == Some(r)
  {
    if r.lower == CustomMin && !hasEntryBefore then Some(r)
    else if IdLess(r.lower, cutoff) then
      if IdLess(r.upper, cutoff) then None else Some(Range(cutoff, r.upper))
    else Some(r)
  }

  /** The range key belongs to an entry list of a cached mailbox. */
  predicate IsEntryRange(s: Store, rk: RangeKey)
  {
    rk.typ == MailSetEntryType && rk.listId in EntryLists(s)
  }

  function AdjustedRange(s: Store, cutoff: ElementId, rk: RangeKey): Option<Range>
    requires rk in s.ranges
  {
    if IsEntryRange(s, rk) then AdjustRange(s.ranges[rk], cutoff, HasEntryBefore(s, rk.listId, cutoff))
    else Some(s.ranges[rk])
  }

  /**
   * Removes the data older than `cutoffDate`. The cutoff id pairs the date
   * with the greatest generated id, so entries received on the cutoff date
   * itself count as older.
   */
  function ClearExcludedData(s: Store, cutoffDate: nat): (r: Store)
    ensures r.entities.Keys <= s.entities.Keys
    ensures forall k :: k in r.entities ==> r.entities[k] == s.entities[k]
    ensures forall k :: k in s.entities && k.typ !in {MailSetEntryType, MailType, MailDetailsBlobType, FileType}
              ==> k in r.entities
    ensures forall k :: k in s.entities && k.typ == MailSetEntryType ==>
              (k !in r.entities <==> IsOldEntry(s, CutoffId(cutoffDate), k))
    ensures forall k :: k in OldEntries(s, CutoffId(cutoffDate)) && s.entities[k].body.MailSetEntryBody?
              ==> StoreKey(MailType, s.entities[k].body.mail) !in r.entities
    ensures forall m :: m in s.entities && m.typ == MailType && m !in DoomedMails(s, CutoffId(cutoffDate))
              ==> m in r.entities
    ensures forall k :: k in s.entities && k.typ == MailDetailsBlobType ==>
              (k in r.entities <==> k !in DoomedDetails(s, CutoffId(cutoffDate)))
    ensures forall k :: k in s.entities && k.typ == FileType ==>
              (k in r.entities <==> k !in DoomedFiles(s, CutoffId(cutoffDate)))
    ensures r.ranges.Keys <= s.ranges.Keys
    ensures forall rk :: rk in s.ranges && !IsEntryRange(s, rk) ==> rk in r.ranges && r.ranges[rk] == s.ranges[rk]
    ensures forall rk :: rk in s.ranges && IsEntryRange(s, rk) ==>
              var adjusted := AdjustRange(s.ranges[rk], CutoffId(cutoffDate), HasEntryBefore(s, rk.listId, CutoffId(cutoffDate)));
              && (rk in r.ranges <==> adjusted.Some?)
              && (rk in r.ranges ==> r.ranges[rk] == adjusted.value)
    ensures r.lastBatchIds == s.lastBatchIds
  {
    var cutoff := CutoffId(cutoffDate);
    var r := Store(KeptEntities(s, cutoff), KeptRanges(s, cutoff), s.lastBatchIds);
    assert forall k :: k in s.entities ==> (k in r.entities <==> k !in Doomed(s, cutoff));
    assert forall k :: k in s.entities ==> DoomedByType(s, cutoff, k) by {
      forall k | k in s.entities ensures DoomedByType(s, cutoff, k) {
        DoomedPartsTyped(s, cutoff, k);
      }
    }
    r
  }

  /** The cached entities that are not doomed, unchanged. */
  function KeptEntities(s: Store, cutoff: ElementId): (r: map<StoreKey, Entity>)
    ensures forall k :: k in r <==> k in s.entities && k !in Doomed(s, cutoff)
    ensures forall k :: k in r ==> r[k] == s.entities[k]
  {
    map k | k in s.entities && k !in Doomed(s, cutoff) :: s.entities[k]
  }

  /** Every recorded range, adjusted; a range whose adjustment drops it is left out. */
  function KeptRanges(s: Store, cutoff: ElementId): (r: map<RangeKey, Range>)
    ensures forall rk :: rk in r <==> rk in s.ranges && AdjustedRange(s, cutoff, rk).Some?
    ensures forall rk :: rk in r ==> r[rk] == AdjustedRange(s, cutoff, rk).value
  {
    map rk | rk in s.ranges && AdjustedRange(s, cutoff, rk).Some? :: AdjustedRange(s, cutoff, rk).value
  }

  /** Each part of the doomed set holds keys of one type only. */
  lemma DoomedPartsTyped(s: Store, cutoff: ElementId, k: StoreKey)
    ensures k in OldEntries(s, cutoff) ==> k.typ == MailSetEntryType
    ensures k in DoomedMails(s, cutoff) ==> k.typ == MailType
    ensures k in DoomedDetails(s, cutoff) ==> k.typ == MailDetailsBlobType
    ensures k in DoomedFiles(s, cutoff) ==> k.typ == FileType
    ensures DoomedByType(s, cutoff, k)
  {
  }

  /** Which part of the doomed set a key of each type can belong to. */
  predicate DoomedByType(s: Store, cutoff: ElementId, k: StoreKey)
  {
    && (k.typ == MailSetEntryType ==> (k in Doomed(s, cutoff) <==> k in OldEntries(s, cutoff)))
    && (k.typ == MailType ==> (k in Doomed(s, cutoff) <==> k in DoomedMails(s, cutoff)))
    && (k.typ == MailDetailsBlobType ==> (k in Doomed(s, cutoff) <==> k in DoomedDetails(s, cutoff)))
    && (k.typ == FileType ==> (k in Doomed(s, cutoff) <==> k in DoomedFiles(s, cutoff)))
    && (k.typ !in {MailSetEntryType, MailType, MailDetailsBlobType, FileType} ==> k !in Doomed(s, cutoff))
  }

  /** A mail deleted with its entry takes its details blob and its attachment files along. */
  lemma CascadeToDetailsAndFiles(s: Store, cutoffDate: nat, entry: StoreKey)
    requires entry in OldEntries(s, CutoffId(cutoffDate)) && s.entities[entry].body.MailSetEntryBody?
    requires StoreKey(MailType, s.entities[entry].body.mail) in s.entities
    requires s.entities[StoreKey(MailType, s.entities[entry].body.mail)].body.MailBody?
    ensures var mail := s.entities[StoreKey(MailType, s.entities[entry].body.mail)].body;
      && (mail.mailDetails.Some? ==> StoreKey(MailDetailsBlobType, mail.mailDetails.value) !in ClearExcludedData(s, cutoffDate).entities)
      && (forall i :: 0 <= i < |mail.attachments| ==> StoreKey(FileType, mail.attachments[i]) !in ClearExcludedData(s, cutoffDate).entities)
  {
    var cutoff := CutoffId(cutoffDate);
    var m := StoreKey(MailType, s.entities[entry].body.mail);
    assert m in DoomedMails(s, cutoff);
    var mail := s.entities[m].body;
    if mail.mailDetails.Some? {
      assert StoreKey(MailDetailsBlobType, mail.mailDetails.value) in DoomedDetails(s, cutoff);
    }
    forall i | 0 <= i < |mail.attachments|
      ensures StoreKey(FileType, mail.attachments[i]) !in ClearExcludedData(s, cutoffDate).entities
    {
      assert StoreKey(FileType, mail.attachments[i]) in DoomedFiles(s, cutoff);
    }
  }

  /** A range of an entry list that lies wholly before the cutoff is dropped. */
  lemma RangeBeforeCutoffDropped(s: Store, cutoffDate: nat, rk: RangeKey)
    requires rk in s.ranges && IsEntryRange(s, rk)
    requires s.ranges[rk].lower != CustomMin
    requires IdLess(s.ranges[rk].lower, CutoffId(cutoffDate)) && IdLess(s.ranges[rk].upper, CutoffId(cutoffDate))
    ensures rk !in ClearExcludedData(s, cutoffDate).ranges
  {
  }

  /** A range of an entry list that starts before the cutoff and ends after it is made to start at the cutoff. */
  lemma RangeAcrossCutoffShrunk(s: Store, cutoffDate: nat, rk: RangeKey)
    requires rk in s.ranges && IsEntryRange(s, rk)
    requires s.ranges[rk].lower != CustomMin || HasEntryBefore(s, rk.listId, CutoffId(cutoffDate))
    requires IdLess(s.ranges[rk].lower, CutoffId(cutoffDate)) && !IdLess(s.ranges[rk].upper, CutoffId(cutoffDate))
    ensures rk in ClearExcludedData(s, cutoffDate).ranges
    ensures ClearExcludedData(s, cutoffDate).ranges[rk] == Range(CutoffId(cutoffDate), s.ranges[rk].upper)
  {
  }

  /** A range that starts at or after the cutoff is left as it is. */
  lemma RangeAfterCutoffKept(s: Store, cutoffDate: nat, rk: RangeKey)
    requires rk in s.ranges && !IdLess(s.ranges[rk].lower, CutoffId(cutoffDate))
    ensures rk in ClearExcludedData(s, cutoffDate).ranges
    ensures ClearExcludedData(s, cutoffDate).ranges[rk] == s.ranges[rk]
  {
  }

  /** A range complete from the least custom id keeps its completeness while none of its entries is older than the cutoff. */
  lemma CompleteRangeKeptWithoutOlderEntries(s: Store, cutoffDate: nat, rk: RangeKey)
    requires rk in s.ranges && s.ranges[rk].lower == CustomMin
    requires !HasEntryBefore(s, rk.listId, CutoffId(cutoffDate))
    ensures rk in ClearExcludedData(s, cutoffDate).ranges
    ensures ClearExcludedData(s, cutoffDate).ranges[rk] == s.ranges[rk]
  {
  }

  /** The complete range of an entry list with an older entry is made to start at the cutoff. */
  lemma CompleteRangeShrunkWithOlderEntries(s: Store, cutoffDate: nat, rk: RangeKey)
    requires rk in s.ranges && IsEntryRange(s, rk) && s.ranges[rk] == Range(CustomMin, CustomMax)
    requires HasEntryBefore(s, rk.listId, CutoffId(cutoffDate))
    ensures rk in ClearExcludedData(s, cutoffDate).ranges
    ensures ClearExcludedData(s, cutoffDate).ranges[rk] == Range(CutoffId(cutoffDate), CustomMax)
  {
  }

  /** An entity of a type that eviction never touches is kept unchanged. */
  lemma UntouchedTypeKept(s: Store, cutoffDate: nat, k: StoreKey)
    requires k in s.entities && k.typ !in {MailSetEntryType, MailType, MailDetailsBlobType, FileType}
    ensures k in ClearExcludedData(s, cutoffDate).entities
    ensures ClearExcludedData(s, cutoffDate).entities[k] == s.entities[k]
  {
  }

  /** Mailboxes survive eviction, so they point to the same folder lists afterwards. */
  lemma FolderListsKept(s: Store, cutoffDate: nat)
    ensures FolderLists(ClearExcludedData(s, cutoffDate)) == FolderLists(s)
  {
    var r := ClearExcludedData(s, cutoffDate);
    forall l | l in FolderLists(s) ensures l in FolderLists(r) {
      var k :| k in s.entities && k.typ == MailBoxType && s.entities[k].body.MailBoxBody?
               && s.entities[k].body.folders.Some? && s.entities[k].body.folders.value == l;
      UntouchedTypeKept(s, cutoffDate, k);
    }
    forall l | l in FolderLists(r) ensures l in FolderLists(s) {
      var k :| k in r.entities && k.typ == MailBoxType && r.entities[k].body.MailBoxBody?
               && r.entities[k].body.folders.Some? && r.entities[k].body.folders.value == l;
      assert k in s.entities && s.entities[k] == r.entities[k];
    }
  }

  /** Folders and mailboxes survive eviction, so the entry lists to clean are the same afterwards. */
  lemma EntryListsKept(s: Store, cutoffDate: nat)
    ensures EntryLists(ClearExcludedData(s, cutoffDate)) == EntryLists(s)
  {
    FolderListsKept(s, cutoffDate);
    EntryListsSurvive(s, cutoffDate);
    EntryListsNotAdded(s, cutoffDate);
  }

  /** Every entry list of the store is still an entry list after clearing. */
  lemma EntryListsSurvive(s: Store, cutoffDate: nat)
    requires FolderLists(ClearExcludedData(s, cutoffDate)) == FolderLists(s)
    ensures EntryLists(s) <= EntryLists(ClearExcludedData(s, cutoffDate))
  {
    var r := ClearExcludedData(s, cutoffDate);
    forall l | l in EntryLists(s) ensures l in EntryLists(r) {
      var k :| k in s.entities && k.typ == MailFolderType && k.key.ListKey? && k.key.listId in FolderLists(s)
               && s.entities[k].body.MailFolderBody? && s.entities[k].body.entries == l;
      UntouchedTypeKept(s, cutoffDate, k);
    }
  }

  /** Clearing creates no entry list. */
  lemma EntryListsNotAdded(s: Store, cutoffDate: nat)
    requires FolderLists(ClearExcludedData(s, cutoffDate)) == FolderLists(s)
    ensures EntryLists(ClearExcludedData(s, cutoffDate)) <= EntryLists(s)
  {
    var r := ClearExcludedData(s, cutoffDate);
    forall l | l in EntryLists(r) ensures l in EntryLists(s) {
      var k :| k in r.entities && k.typ == MailFolderType && k.key.ListKey? && k.key.listId in FolderLists(r)
               && r.entities[k].body.MailFolderBody? && r.entities[k].body.entries == l;
      assert k in s.entities && s.entities[k] == r.entities[k];
    }
  }

  /** After clearing, no entry older than the cutoff is left, so nothing more is doomed. */
  lemma NothingDoomedAfterClear(s: Store, cutoffDate: nat)
    ensures Doomed(ClearExcludedData(s, cutoffDate), CutoffId(cutoffDate)) == {}
  {
    var cutoff := CutoffId(cutoffDate);
    var r := ClearExcludedData(s, cutoffDate);
    EntryListsKept(s, cutoffDate);
    assert OldEntries(r, cutoff) == {} by {
      forall k | k in r.entities ensures !IsOldEntry(r, cutoff, k) {
        assert k in s.entities && k !in Doomed(s, cutoff) && r.entities[k] == s.entities[k];
        assert !IsOldEntry(s, cutoff, k);
      }
    }
    assert DoomedMails(r, cutoff) == {};
    assert DoomedDetails(r, cutoff) == {};
    assert DoomedFiles(r, cutoff) == {};
  }

  /** A second clearing removes no entity. */
  lemma EntitiesStableAfterClear(s: Store, cutoffDate: nat)
    ensures ClearExcludedData(ClearExcludedData(s, cutoffDate), cutoffDate).entities == ClearExcludedData(s, cutoffDate).entities
  {
    var r := ClearExcludedData(s, cutoffDate);
    NothingDoomedAfterClear(s, cutoffDate);
    KeepAllWhenNothingDoomed(r, CutoffId(cutoffDate));
  }

  /** With nothing doomed, every entity is kept. */
  lemma KeepAllWhenNothingDoomed(t: Store, cutoff: ElementId)
    requires Doomed(t, cutoff) == {}
    ensures KeptEntities(t, cutoff) == t.entities
  {
    assert KeptEntities(t, cutoff).Keys == t.entities.Keys;
  }

  /** A second clearing changes no range. */
  lemma RangesStableAfterClear(s: Store, cutoffDate: nat)
    ensures ClearExcludedData(ClearExcludedData(s, cutoffDate), cutoffDate).ranges == ClearExcludedData(s, cutoffDate).ranges
  {
    var cutoff := CutoffId(cutoffDate);
    var r := ClearExcludedData(s, cutoffDate);
    EntryListsKept(s, cutoffDate);
    forall rk | rk in r.ranges
      ensures AdjustedRange(r, cutoff, rk) == Some(r.ranges[rk])
    {
      if IsEntryRange(r, rk) {
        assert !HasEntryBefore(r, rk.listId, cutoff) by {
          forall k | k in r.entities && k.typ == MailSetEntryType && k.key.ListKey? && k.key.listId == rk.listId
            ensures !IdLess(k.key.elementId, cutoff)
          {
            assert !IsOldEntry(s, cutoff, k);
          }
        }
      }
    }
  }

  /** Clearing twice with the same cutoff date changes nothing the first pass did not. */
  lemma ClearExcludedDataIdempotent(s: Store, cutoffDate: nat)
    ensures ClearExcludedData(ClearExcludedData(s, cutoffDate), cutoffDate) == ClearExcludedData(s, cutoffDate)
  {
    EntitiesStableAfterClear(s, cutoffDate);
    RangesStableAfterClear(s, cutoffDate);
  }
}
