/**
 * The index's bookkeeping of the groups it indexes: comparing the groups
 * stored in the index with the user's current memberships, creating group
 * data for new groups, and reading back the remembered batch ids of every
 * membership before catching up.
 *
 * The user's index memberships are given already filtered; the group table
 * of the index database is a map, and the server's answer to "the latest
 * batch of this group" is a function parameter.
 */
module IndexerGroups {
  import opened Results
  import opened IndexerTypes
  import IndexerCatchUp

  /** A row of the stored group table as read back: either part may be missing or of the wrong type. */
  datatype StoredGroupEntry = StoredGroupEntry(key: Option<GroupId>, groupType: Option<GroupType>)

  /** What reading the whole group table returned. */
  datatype StoredGroups = NotAnArray | Entries(entries: seq<StoredGroupEntry>)

  datatype IndexedGroup = IndexedGroup(id: GroupId, groupType: GroupType)

  datatype GroupDiff = GroupDiff(deletedGroups: seq<IndexedGroup>, newGroups: seq<IndexedGroup>)

  /** How far back the mails of a group are indexed. */
  datatype IndexTimestamp = NothingIndexed | IndexedUpTo(millis: int)

  /** What the index stores per group. */
  datatype GroupData = GroupData(lastBatchIds: seq<BatchId>, indexTimestamp: IndexTimestamp, groupType: GroupType)

  datatype GroupEntry = GroupEntry(groupId: GroupId, groupData: GroupData)

  /** The server's answer to a request for the latest batch of a group. */
  datatype LatestLoad = Latest(batchIds: seq<BatchId>) | NoPermission | LatestFailed

  // ---------------------------------------------------------------------
  // Group diff
  // ---------------------------------------------------------------------

  predicate IsWellFormedEntry(e: StoredGroupEntry)
  {
    e.key.Some? && e.groupType.Some?
  }

  predicate HasMembership(current: seq<Membership>, id: GroupId)
  {
    exists i :: 0 <= i < |current| && current[i].group == id
  }

  predicate IsStored(previous: seq<IndexedGroup>, id: GroupId)
  {
    exists i :: 0 <= i < |previous| && previous[i].id == id
  }

  /** A group id is stored exactly when some row carries it as key. */
  lemma OldGroupsStoredIffKey(entries: seq<StoredGroupEntry>)
    requires OldGroups(entries).Success?
    ensures forall id :: IsStored(OldGroups(entries).value, id) <==> exists i :: 0 <= i < |entries| && entries[i].key == Some(id)
  {
    var previous := OldGroups(entries).value;
    assert forall i :: 0 <= i < |entries| ==> entries[i].key == Some(previous[i].id);
  }

  /** The stored groups, or an invalid-database error when some row is malformed. */
  function OldGroups(entries: seq<StoredGroupEntry>): (r: Result<seq<IndexedGroup>, IndexError>)
    ensures r.Success? <==> forall i :: 0 <= i < |entries| ==> IsWellFormedEntry(entries[i])
    ensures r.Failure? ==> r.error == InvalidDatabaseState
    ensures r.Success? ==> |r.value| == |entries|
    ensures r.Success? ==> forall i :: 0 <= i < |entries| ==>
              r.value[i] == IndexedGroup(entries[i].key.value, entries[i].groupType.value)
  {
    if |entries| == 0 then Success([])
    else
      var e := entries[0];
      var rest := OldGroups(entries[1..]);
      assert forall i :: 1 <= i < |entries| ==> entries[i] == entries[1..][i - 1];
      if !IsWellFormedEntry(e) then Failure(InvalidDatabaseState)
      else if rest.Failure? then rest
      else Success([IndexedGroup(e.key.value, e.groupType.value)] + rest.value)
  }

  /** The stored groups the user is no longer a member of, in stored order. */
  function DeletedGroups(previous: seq<IndexedGroup>, current: seq<Membership>): (r: seq<IndexedGroup>)
    ensures forall g :: g in r <==> g in previous && !HasMembership(current, g.id)
  {
    if |previous| == 0 then []
    else
      var rest := DeletedGroups(previous[1..], current);
      assert forall g :: g in previous <==> g == previous[0] || g in previous[1..];
      if HasMembership(current, previous[0].id) then rest else [previous[0]] + rest
  }

  /** The memberships whose group is not stored yet, in membership order. */
  function NewGroups(current: seq<Membership>, previous: seq<IndexedGroup>): (r: seq<IndexedGroup>)
    ensures forall g :: g in r <==> Membership(g.id, g.groupType) in current && !IsStored(previous, g.id)
  {
    if |current| == 0 then []
    else
      var m := current[0];
      var rest := NewGroups(current[1..], previous);
      assert forall x :: x in current <==> x == m || x in current[1..];
      if IsStored(previous, m.group) then rest else [IndexedGroup(m.group, m.groupType)] + rest
  }

  /**
   * Compares the stored groups with the current memberships. Reading a table
   * that is not a list, or a malformed row, means the database is invalid.
   */
  function LoadGroupDiff(current: seq<Membership>, stored: StoredGroups): (r: Result<GroupDiff, IndexError>)
    ensures r.Failure? <==>
              stored.NotAnArray? || exists i :: 0 <= i < |stored.entries| && !IsWellFormedEntry(stored.entries[i])
    ensures r.Failure? ==> r.error == InvalidDatabaseState
    ensures r.Success? ==>
              && (forall g :: g in r.value.deletedGroups ==>
                    !HasMembership(current, g.id) &&
                    exists i :: 0 <= i < |stored.entries| && stored.entries[i] == StoredGroupEntry(Some(g.id), Some(g.groupType)))
              && (forall g :: g in r.value.newGroups ==>
                    Membership(g.id, g.groupType) in current && forall i :: 0 <= i < |stored.entries| ==> stored.entries[i].key != Some(g.id))
    ensures r.Success? ==> forall i ::
              (0 <= i < |stored.entries| && stored.entries[i].key.Some? && stored.entries[i].groupType.Some? &&
               !HasMembership(current, stored.entries[i].key.value)) ==>
              IndexedGroup(stored.entries[i].key.value, stored.entries[i].groupType.value) in r.value.deletedGroups
    ensures r.Success? ==> forall m :: m in current && (forall i :: 0 <= i < |stored.entries| ==> stored.entries[i].key != Some(m.group)) ==>
              IndexedGroup(m.group, m.groupType) in r.value.newGroups
  {
    match stored
    case NotAnArray => Failure(InvalidDatabaseState)
    case Entries(entries) =>
      match OldGroups(entries)
      case Failure(e) => Failure(e)
      case Success(previous) =>
        OldGroupsStoredIffKey(entries);
        assert forall i :: 0 <= i < |entries| ==> previous[i] in previous;
        assert forall i :: 0 <= i < |entries| ==> entries[i] == StoredGroupEntry(Some(previous[i].id), Some(previous[i].groupType));
        assert forall m :: m in current ==> Membership(IndexedGroup(m.group, m.groupType).id, IndexedGroup(m.group, m.groupType).groupType) == m;
        Success(GroupDiff(DeletedGroups(previous, current), NewGroups(current, previous)))
  }

  /** No group is both deleted and new. */
  lemma GroupDiffDisjoint(current: seq<Membership>, stored: StoredGroups, d: IndexedGroup, n: IndexedGroup)
    requires LoadGroupDiff(current, stored).Success?
    requires d in LoadGroupDiff(current, stored).value.deletedGroups
    requires n in LoadGroupDiff(current, stored).value.newGroups
    ensures d.id != n.id
  {
    var entries := stored.entries;
    var i :| 0 <= i < |entries| && entries[i].key == Some(d.id);
    assert entries[i].key != Some(n.id);
  }

  lemma {:induction false} NothingDeletedWhenAllMembers(previous: seq<IndexedGroup>, current: seq<Membership>)
    requires forall i :: 0 <= i < |previous| ==> HasMembership(current, previous[i].id)
    ensures DeletedGroups(previous, current) == []
    decreases |previous|
  {
    if |previous| > 0 {
      assert forall i :: 1 <= i < |previous| ==> previous[i] == previous[1..][i - 1];
      NothingDeletedWhenAllMembers(previous[1..], current);
    }
  }

  lemma {:induction false} NothingNewWhenAllStored(current: seq<Membership>, previous: seq<IndexedGroup>)
    requires forall i :: 0 <= i < |current| ==> IsStored(previous, current[i].group)
    ensures NewGroups(current, previous) == []
    decreases |current|
  {
    if |current| > 0 {
      assert forall i :: 1 <= i < |current| ==> current[i] == current[1..][i - 1];
      NothingNewWhenAllStored(current[1..], previous);
    }
  }

  /** When the stored groups are exactly the current memberships, nothing changed. */
  lemma UnchangedGroupsGiveEmptyDiff(current: seq<Membership>, entries: seq<StoredGroupEntry>)
    requires forall i :: 0 <= i < |entries| ==> entries[i].key.Some? && entries[i].groupType.Some?
    requires forall i :: 0 <= i < |entries| ==> entries[i].key.Some? && HasMembership(current, entries[i].key.value)
    requires forall i :: 0 <= i < |current| ==> exists k :: 0 <= k < |entries| && entries[k].key == Some(current[i].group)
    ensures LoadGroupDiff(current, Entries(entries)) == Success(GroupDiff([], []))
  {
    var previous := OldGroups(entries).value;
    assert forall i :: 0 <= i < |previous| ==> previous[i].id == entries[i].key.value;
    NothingDeletedWhenAllMembers(previous, current);
    forall i | 0 <= i < |current| ensures IsStored(previous, current[i].group) {
      var k :| 0 <= k < |entries| && entries[k].key == Some(current[i].group);
      assert previous[k].id == current[i].group;
    }
    NothingNewWhenAllStored(current, previous);
  }

  // ---------------------------------------------------------------------
  // Group data for new groups
  // ---------------------------------------------------------------------

  predicate IsSelected(restrictTo: Option<seq<GroupId>>, m: Membership)
  {
    restrictTo.None? || m.group in restrictTo.value
  }

  /** The group data a fresh group starts with: its latest batch ids, nothing of it indexed yet. */
  function FreshGroupData(m: Membership, batchIds: seq<BatchId>): GroupData
  {
    GroupData(batchIds, NothingIndexed, m.groupType)
  }

  /**
   * Loads the latest batch of every selected membership, one after the
   * other. A group the user lost the permission on is skipped; any other
   * failure fails the whole load.
   */
  function LoadGroupData(memberships: seq<Membership>, restrictTo: Option<seq<GroupId>>, loadLatest: GroupId -> LatestLoad)
    : (r: Result<seq<GroupEntry>, IndexError>)
    ensures r.Success? <==>
              forall i :: 0 <= i < |memberships| && IsSelected(restrictTo, memberships[i]) ==>
                loadLatest(memberships[i].group) != LatestFailed
    ensures r.Failure? ==> r.error == OtherError
    ensures r.Success? ==> forall e :: e in r.value ==>
              exists i :: 0 <= i < |memberships| && IsSelected(restrictTo, memberships[i]) &&
                loadLatest(memberships[i].group).Latest? &&
                e == GroupEntry(memberships[i].group, FreshGroupData(memberships[i], loadLatest(memberships[i].group).batchIds))
    ensures r.Success? ==> forall i ::
              (0 <= i < |memberships| && IsSelected(restrictTo, memberships[i]) && loadLatest(memberships[i].group).Latest?) ==>
                GroupEntry(memberships[i].group, FreshGroupData(memberships[i], loadLatest(memberships[i].group).batchIds)) in r.value
  {
    if |memberships| == 0 then Success([])
    else
      var m := memberships[0];
      var rest := LoadGroupData(memberships[1..], restrictTo, loadLatest);
      assert forall i :: 1 <= i < |memberships| ==> memberships[i] == memberships[1..][i - 1];
      if !IsSelected(restrictTo, m) then rest
      else
        match loadLatest(m.group)
        case LatestFailed => Failure(OtherError)
        case NoPermission => rest
        case Latest(ids) =>
          if rest.Failure? then rest
          else Success([GroupEntry(m.group, FreshGroupData(m, ids))] + rest.value)
  }

  function IdsOf(groups: seq<IndexedGroup>): (r: seq<GroupId>)
    ensures |r| == |groups|
    ensures forall i :: 0 <= i < |groups| ==> r[i] == groups[i].id
  {
    seq(|groups|, i requires 0 <= i < |groups| => groups[i].id)
  }

  /**
   * Reacts to the group diff: losing a mail or contact group invalidates the
   * index; otherwise the new groups get fresh group data, which is returned
   * to be written.
   */
  function UpdateGroups(diff: GroupDiff, memberships: seq<Membership>, loadLatest: GroupId -> LatestLoad)
    : (r: Result<seq<GroupEntry>, IndexError>)
    ensures r == Failure(MembershipRemoved) <==>
              exists g :: g in diff.deletedGroups && (g.groupType == MailGroup || g.groupType == ContactGroup)
    ensures |diff.newGroups| == 0 && r.Success? ==> r.value == []
    ensures r.Success? ==> forall e :: e in r.value ==> e.groupId in IdsOf(diff.newGroups)
    ensures r.Failure? ==> r.error == MembershipRemoved || r.error == OtherError
    ensures (forall g :: g in diff.deletedGroups ==> g.groupType != MailGroup && g.groupType != ContactGroup) ==>
              (r.Success? <==> forall i ::
                 (0 <= i < |memberships| && memberships[i].group in IdsOf(diff.newGroups)) ==> loadLatest(memberships[i].group) != LatestFailed)
    ensures r.Success? ==> forall i ::
              (0 <= i < |memberships| && memberships[i].group in IdsOf(diff.newGroups) && loadLatest(memberships[i].group).Latest?) ==>
              GroupEntry(memberships[i].group, FreshGroupData(memberships[i], loadLatest(memberships[i].group).batchIds)) in r.value
  {
    if exists g :: g in diff.deletedGroups && (g.groupType == MailGroup || g.groupType == ContactGroup) then
      Failure(MembershipRemoved)
    else if |diff.newGroups| > 0 then
      LoadGroupData(memberships, Some(IdsOf(diff.newGroups)), loadLatest)
    else
      Success([])
  }

  /** Writes group data rows, one after the other; a group written twice keeps its last data. */
  function InitGroupData(table: map<GroupId, GroupData>, entries: seq<GroupEntry>): (r: map<GroupId, GroupData>)
    ensures r.Keys == table.Keys + set e | e in entries :: e.groupId
    ensures forall id :: id in table && (forall e :: e in entries ==> e.groupId != id) ==> r[id] == table[id]
    ensures forall i :: IsLastWrite(entries, i) ==> r[entries[i].groupId] == entries[i].groupData
    decreases |entries|
  {
    if |entries| == 0 then table
    else
      var first := entries[0];
      var rest := InitGroupData(table[first.groupId := first.groupData], entries[1..]);
      InitGroupDataStep(table, entries, rest);
      rest
  }

  /** Writing the first entry and then, by the contract of the recursive call, the rest. */
  lemma InitGroupDataStep(table: map<GroupId, GroupData>, entries: seq<GroupEntry>, rest: map<GroupId, GroupData>)
    requires |entries| > 0
    requires rest.Keys == table[entries[0].groupId := entries[0].groupData].Keys + set e | e in entries[1..] :: e.groupId
    requires forall id :: id in table[entries[0].groupId := entries[0].groupData] && (forall e :: e in entries[1..] ==> e.groupId != id) ==>
               rest[id] == table[entries[0].groupId := entries[0].groupData][id]
    requires forall i :: IsLastWrite(entries[1..], i) ==> rest[entries[1..][i].groupId] == entries[1..][i].groupData
    ensures rest.Keys == table.Keys + set e | e in entries :: e.groupId
    ensures forall id :: id in table && (forall e :: e in entries ==> e.groupId != id) ==> rest[id] == table[id]
    ensures forall i :: IsLastWrite(entries, i) ==> rest[entries[i].groupId] == entries[i].groupData
  {
    var first, tail := entries[0], entries[1..];
    assert forall e :: e in entries <==> e == first || e in tail;
    forall i | IsLastWrite(entries, i) ensures rest[entries[i].groupId] == entries[i].groupData {
      if i == 0 {
        FirstLastWriteNotInTail(entries);
      } else {
        LastWriteInTail(entries, i);
      }
    }
  }

  /** Entry `i` is the last one written for its group. */
  predicate IsLastWrite(entries: seq<GroupEntry>, i: int)
  {
    0 <= i < |entries| && forall j :: i < j < |entries| ==> entries[j].groupId != entries[i].groupId
  }

  /** A last write that is not the first entry is a last write of the rest. */
  lemma LastWriteInTail(entries: seq<GroupEntry>, i: int)
    requires IsLastWrite(entries, i) && i > 0
    ensures entries[1..][i - 1] == entries[i] && IsLastWrite(entries[1..], i - 1)
  {
    var tail := entries[1..];
    forall j | i - 1 < j < |tail| ensures tail[j].groupId != tail[i - 1].groupId {
      assert tail[j] == entries[j + 1];
    }
  }

  /** When the first entry is the last write of its group, no later entry names that group. */
  lemma FirstLastWriteNotInTail(entries: seq<GroupEntry>)
    requires IsLastWrite(entries, 0)
    ensures forall e :: e in entries[1..] ==> e.groupId != entries[0].groupId
  {
    var tail := entries[1..];
    forall e | e in tail ensures e.groupId != entries[0].groupId {
      var j :| 0 <= j < |tail| && tail[j] == e;
      assert entries[j + 1] == e;
    }
  }

  // ---------------------------------------------------------------------
  // Reading back the remembered batch ids
  // ---------------------------------------------------------------------

  /**
   * The remembered batch ids of every membership, in membership order; a
   * membership without stored group data means the database is invalid.
   */
  function LoadPersistentGroupData(memberships: seq<Membership>, table: map<GroupId, GroupData>)
    : (r: Result<seq<IndexerCatchUp.PersistentGroup>, IndexError>)
    ensures r.Failure? <==> exists i :: 0 <= i < |memberships| && memberships[i].group !in table
    ensures r.Failure? ==> r.error == InvalidDatabaseState
    ensures r.Success? ==> |r.value| == |memberships|
    ensures r.Success? ==> forall i :: 0 <= i < |memberships| ==>
              r.value[i] == IndexerCatchUp.PersistentGroup(memberships[i].group, table[memberships[i].group].lastBatchIds)
  {
    if |memberships| == 0 then Success([])
    else
      var m := memberships[0];
      var rest := LoadPersistentGroupData(memberships[1..], table);
      assert forall i :: 1 <= i < |memberships| ==> memberships[i] == memberships[1..][i - 1];
      if m.group !in table then Failure(InvalidDatabaseState)
      else if rest.Failure? then rest
      else Success([IndexerCatchUp.PersistentGroup(m.group, table[m.group].lastBatchIds)] + rest.value)
  }

  /**
   * After the group diff has been applied and the new groups' data written,
   * every membership has stored group data, provided the server answered
   * for every new group.
   */
  lemma UpdatedGroupsArePersistent(
    current: seq<Membership>, entries: seq<StoredGroupEntry>, table: map<GroupId, GroupData>,
    loadLatest: GroupId -> LatestLoad)
    requires LoadGroupDiff(current, Entries(entries)).Success?
    requires forall i :: 0 <= i < |entries| && entries[i].key.Some? ==> entries[i].key.value in table
    requires UpdateGroups(LoadGroupDiff(current, Entries(entries)).value, current, loadLatest).Success?
    requires forall i :: 0 <= i < |current| ==> loadLatest(current[i].group).Latest?
    ensures var written := UpdateGroups(LoadGroupDiff(current, Entries(entries)).value, current, loadLatest).value;
            LoadPersistentGroupData(current, InitGroupData(table, written)).Success?
  {
    var diff := LoadGroupDiff(current, Entries(entries)).value;
    var written := UpdateGroups(diff, current, loadLatest).value;
    var after := InitGroupData(table, written);
    forall i | 0 <= i < |current| ensures current[i].group in after {
      var m := current[i];
      if !exists k :: 0 <= k < |entries| && entries[k].key == Some(m.group) {
        assert IndexedGroup(m.group, m.groupType) in diff.newGroups;
        assert |diff.newGroups| > 0;
        var ids := IdsOf(diff.newGroups);
        var j :| 0 <= j < |diff.newGroups| && diff.newGroups[j] == IndexedGroup(m.group, m.groupType);
        assert ids[j] == m.group;
        assert IsSelected(Some(ids), m);
        assert GroupEntry(m.group, FreshGroupData(m, loadLatest(m.group).batchIds)) in written;
      }
    }
  }
}
