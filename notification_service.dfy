/**
 * Notifications are rows addressed to one user each. Sending a notice to a
 * list of users stores one row per listed id.
 */
module NotificationService {
  import opened Collections
  import opened Domain
  import opened Persistence

  /** The rows a batch notice appends: one per id, in list order, numbered from `firstId`. */
  function Batch(firstId: nat, userIds: seq<nat>, kind: NotificationType, text: string): seq<Notification>
  {
    seq(|userIds|, i requires 0 <= i < |userIds| => Notification(firstId + i, kind, text, userIds[i]))
  }

  /** How many of `notes` are addressed to user `u`. */
  function NotesFor(notes: seq<Notification>, u: nat): nat
  {
    CountWhere(notes, (n: Notification) => n.userId == u)
  }

  /**
   * Each user receives as many rows as the id list names them: none for an
   * empty list, two for an id listed twice.
   */
  lemma {:induction false} BatchCountsPerUser(firstId: nat, userIds: seq<nat>, kind: NotificationType, text: string, u: nat)
    ensures NotesFor(Batch(firstId, userIds, kind, text), u) == multiset(userIds)[u]
    decreases |userIds|
  {
    if userIds != [] {
      var k := |userIds| - 1;
      var init := userIds[..k];
      assert userIds == init + [userIds[k]];
      assert Batch(firstId, userIds, kind, text)[..k] == Batch(firstId, init, kind, text);
      BatchCountsPerUser(firstId, init, kind, text, u);
    }
  }

  /** Every row of a batch carries the notice's text and type, and the listed user in list order. */
  lemma BatchCarriesNotice(firstId: nat, userIds: seq<nat>, kind: NotificationType, text: string)
    ensures |Batch(firstId, userIds, kind, text)| == |userIds|
    ensures forall i :: 0 <= i < |userIds| ==>
      var n := Batch(firstId, userIds, kind, text)[i];
      n.userId == userIds[i] && n.notificationType == kind && n.text == text
  {
  }

  /** `notify_user`: stores exactly one row with the given text, type and user. */
  method NotifyUser(store: Store, kind: NotificationType, text: string, userId: nat) returns (n: Notification)
    requires store.Valid()
    modifies store`notifications, store`nextNotificationId
    ensures store.Valid()
    ensures n == Notification(old(store.nextNotificationId), kind, text, userId)
    ensures store.notifications == old(store.notifications) + [n]
    ensures store.nextNotificationId == old(store.nextNotificationId) + 1
  {
    n := store.CreateNotification(kind, text, userId);
  }

  /** `notify_users`: one `notify_user` per id, in list order. */
  method NotifyUsers(store: Store, userIds: seq<nat>, kind: NotificationType, text: string)
    requires store.Valid()
    modifies store`notifications, store`nextNotificationId
    ensures store.Valid()
    ensures store.notifications == old(store.notifications) + Batch(old(store.nextNotificationId), userIds, kind, text)
    ensures store.nextNotificationId == old(store.nextNotificationId) + |userIds|
  {
    var i := 0;
    while i < |userIds|
      invariant 0 <= i <= |userIds|
      invariant store.Valid()
      invariant store.notifications == old(store.notifications) + Batch(old(store.nextNotificationId), userIds[..i], kind, text)
      invariant store.nextNotificationId == old(store.nextNotificationId) + i
    {
      var n := NotifyUser(store, kind, text, userIds[i]);
      assert Batch(old(store.nextNotificationId), userIds[..i + 1], kind, text)
          == Batch(old(store.nextNotificationId), userIds[..i], kind, text) + [n];
      i := i + 1;
    }
    assert userIds[..i] == userIds;
  }
}
