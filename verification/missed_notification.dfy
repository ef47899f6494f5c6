/**
 * An encrypted missed notification as the native side receives it: its alarm
 * notifications, each carrying the notification session keys encrypted for
 * the device's push identifiers. Attribute access by name is taken as done:
 * the records below hold the attributes' values.
 */
module MissedNotification {
  import opened Results
  import opened EntityTypes

  type Base64 = string

  /** A notification session key as stored in an alarm notification. */
  datatype StoredSessionKey = StoredSessionKey(pushIdentifier: seq<IdTuple>, pushIdentifierSessionEncSessionKey: Base64)

  datatype AlarmNotification = AlarmNotification(notificationSessionKeys: seq<StoredSessionKey>)

  datatype EncryptedMissedNotification = EncryptedMissedNotification(
    alarmNotifications: seq<AlarmNotification>,
    notificationInfos: seq<UntypedInstance>,
    lastProcessedNotificationId: Option<Id>)

  /**
   * A notification session key handed to the caller. The push identifier is
   * the first element of the stored list; an empty list leaves it undefined,
   * modelled as `None`.
   */
  datatype NotificationSessionKey = NotificationSessionKey(pushIdentifier: Option<IdTuple>, pushIdentifierSessionEncSessionKey: seq<bv8>)

  /** Converts one stored key, decoding its encrypted session key from base64. */
  function ToSessionKey(k: StoredSessionKey, decodeBase64: Base64 -> seq<bv8>): (r: NotificationSessionKey)
    ensures |k.pushIdentifier| > 0 ==> r.pushIdentifier == Some(k.pushIdentifier[0])
    ensures |k.pushIdentifier| == 0 ==> r.pushIdentifier.None?
    ensures r.pushIdentifierSessionEncSessionKey == decodeBase64(k.pushIdentifierSessionEncSessionKey)
  {
    NotificationSessionKey(
      if |k.pushIdentifier| > 0 then Some(k.pushIdentifier[0]) else None,
      decodeBase64(k.pushIdentifierSessionEncSessionKey))
  }

  /** Alarm `i` is the first alarm notification that carries any key. */
  predicate IsFirstWithKeys(alarms: seq<AlarmNotification>, i: nat)
  {
    && i < |alarms|
    && |alarms[i].notificationSessionKeys| > 0
    && forall j :: 0 <= j < i ==> |alarms[j].notificationSessionKeys| == 0
  }

  /**
   * The session keys of the missed notification. All alarm notifications
   * share their keys, so the keys of the first alarm notification that has
   * any are converted, in order; later alarms are not consulted. Without any
   * such alarm the answer is empty.
   */
  method GetNotificationSessionKeys(n: EncryptedMissedNotification, decodeBase64: Base64 -> seq<bv8>)
    returns (r: seq<NotificationSessionKey>)
    ensures r == [] <==> forall j :: 0 <= j < |n.alarmNotifications| ==> |n.alarmNotifications[j].notificationSessionKeys| == 0
    ensures forall i: nat :: IsFirstWithKeys(n.alarmNotifications, i) ==>
              var keys := n.alarmNotifications[i].notificationSessionKeys;
              |r| == |keys| && forall k :: 0 <= k < |keys| ==> r[k] == ToSessionKey(keys[k], decodeBase64)
  {
    var alarms := n.alarmNotifications;
    var i := 0;
    while i < |alarms|
      invariant i <= |alarms|
      invariant forall j :: 0 <= j < i ==> |alarms[j].notificationSessionKeys| == 0
    {
      var keys := alarms[i].notificationSessionKeys;
      if |keys| > 0 {
        assert IsFirstWithKeys(alarms, i);
        r := seq(|keys|, k requires 0 <= k < |keys| => ToSessionKey(keys[k], decodeBase64));
        return;
      }
      i := i + 1;
    }
    return [];
  }

  /** There is at most one first alarm with keys. */
  lemma FirstWithKeysUnique(alarms: seq<AlarmNotification>, i: nat, j: nat)
    requires IsFirstWithKeys(alarms, i) && IsFirstWithKeys(alarms, j)
    ensures i == j
  {
  }

  /** The id of the last processed notification, absent when the attribute is not set. */
  function LastProcessedNotificationId(n: EncryptedMissedNotification): (r: Option<Id>)
    ensures r.None? <==> n.lastProcessedNotificationId.None?
    ensures r.Some? ==> r.value == n.lastProcessedNotificationId.value
  {
    n.lastProcessedNotificationId
  }
}
