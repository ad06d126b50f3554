/** The notification handlers: filters, targeted and bulk updates and deletes
    on the notification collection. No handler touches another collection.
 */
module NotificationController {
  import opened DocumentStore

  /** The store outside the notification collection is the same in both. */
  predicate OnlyNotificationsDiffer(s: Store, s': Store)
  {
    s'.matches == s.matches && s'.items == s.items && s'.chats == s.chats
  }

  /** The ids of `u`'s notifications that are still unread. */
  function UnreadOf(ns: map<Id, Notification>, u: Id): set<Id>
  {
    set id | id in ns && ns[id].userId == u && !ns[id].isRead
  }

  /** The ids whose document differs between two versions of the collection. */
  function Changed(ns: map<Id, Notification>, ns': map<Id, Notification>): set<Id>
  {
    set id | id in ns && id in ns' && ns[id] != ns'[id]
  }

  /** `getAllByUserId`: the user id comes from the query string. */
  function GetAllByUserId(s: Store, userId: Option<Id>): (r: Reply<Option<map<Id, Notification>>>)
    ensures r.store == s
    ensures Missing(userId) <==> r.status == BadRequest
    ensures Missing(userId) ==> r.body == None
    ensures !Missing(userId) ==>
              && r.status == Ok && r.body.Some?
              && (forall id :: id in r.body.value <==> id in s.notifications && s.notifications[id].userId == userId.value)
              && (forall id :: id in r.body.value ==> r.body.value[id] == s.notifications[id])
  {
    if Missing(userId) then Reply(BadRequest, None, s)
    else Reply(Ok, Some(KeepWhere(s.notifications, (n: Notification) => n.userId == userId.value)), s)
  }

  /** `getById`: the notification id comes from the path. */
  function GetById(s: Store, id: Option<Id>): (r: Reply<Option<Notification>>)
    ensures r.store == s
    ensures Missing(id) <==> r.status == BadRequest
    ensures r.status == NotFound <==> !Missing(id) && id.value !in s.notifications
    ensures r.status == Ok <==> !Missing(id) && id.value in s.notifications
    ensures r.status == Ok ==> r.body == Some(s.notifications[id.value])
    ensures r.status != Ok ==> r.body == None
  {
    if Missing(id) then Reply(BadRequest, None, s)
    else if id.value !in s.notifications then Reply(NotFound, None, s)
    else Reply(Ok, Some(s.notifications[id.value]), s)
  }

  /** `deleteById`: the notification id comes from the path. */
  function DeleteById(s: Store, id: Option<Id>): (r: Reply<()>)
    ensures Missing(id) ==> r.status == BadRequest && r.store == s
    ensures !Missing(id) && id.value !in s.notifications ==> r.status == NotFound && r.store == s
    ensures !Missing(id) && id.value in s.notifications ==>
              && r.status == Ok
              && id.value !in r.store.notifications
              && r.store.notifications.Keys == s.notifications.Keys - {id.value}
    ensures forall n :: n in r.store.notifications ==> n in s.notifications && r.store.notifications[n] == s.notifications[n]
    ensures OnlyNotificationsDiffer(s, r.store)
  {
    if Missing(id) then Reply(BadRequest, (), s)
    else if id.value !in s.notifications then Reply(NotFound, (), s)
    else Reply(Ok, (), s.(notifications := s.notifications - {id.value}))
  }

  /** `markAsRead`: the notification id comes from the path; the updated
      document is returned. */
  function MarkAsRead(s: Store, id: Option<Id>): (r: Reply<Option<Notification>>)
    ensures Missing(id) ==> r.status == BadRequest && r.body == None && r.store == s
    ensures !Missing(id) && id.value !in s.notifications ==> r.status == NotFound && r.body == None && r.store == s
    ensures !Missing(id) && id.value in s.notifications ==>
              var before := s.notifications[id.value];
              && r.status == Ok && r.body.Some?
              && r.body.value.isRead
              && r.body.value.userId == before.userId
              && r.body.value.matchId == before.matchId
              && r.body.value.item1Id == before.item1Id
              && r.body.value.item2Id == before.item2Id
              && id.value in r.store.notifications
              && r.store.notifications[id.value] == r.body.value
    ensures r.store.notifications.Keys == s.notifications.Keys
    ensures forall n :: n in s.notifications && (Missing(id) || n != id.value) ==>
              r.store.notifications[n] == s.notifications[n]
    ensures OnlyNotificationsDiffer(s, r.store)
  {
    if Missing(id) || id.value !in s.notifications then
      Reply(if Missing(id) then BadRequest else NotFound, None, s)
    else
      var updated := s.notifications[id.value].(isRead := true);
      Reply(Ok, Some(updated), s.(notifications := s.notifications[id.value := updated]))
  }

  /** `markAllAsRead`: the user id comes from the request body; `updateMany`
      over the user's unread notifications, reporting its `modifiedCount`. */
  function MarkAllAsRead(s: Store, userId: Option<Id>): (r: Reply<Option<nat>>)
    ensures r.store.notifications.Keys == s.notifications.Keys
    ensures Missing(userId) ==> r.status == BadRequest && r.body == None && r.store == s
    ensures !Missing(userId) ==>
              && r.status == Ok
              && r.body == Some(|Changed(s.notifications, r.store.notifications)|)
              && UnreadOf(r.store.notifications, userId.value) == {}
              && (forall id :: id in s.notifications && s.notifications[id].userId != userId.value ==>
                    r.store.notifications[id] == s.notifications[id])
    ensures forall id :: id in s.notifications ==>
              r.store.notifications[id] == s.notifications[id].(isRead := r.store.notifications[id].isRead)
              && (s.notifications[id].isRead ==> r.store.notifications[id].isRead)
    ensures OnlyNotificationsDiffer(s, r.store)
  {
    if Missing(userId) then Reply(BadRequest, None, s)
    else
      var u := userId.value;
      var ns := s.notifications;
      var ns' := map id | id in ns :: if ns[id].userId == u then ns[id].(isRead := true) else ns[id];
      assert Changed(ns, ns') == UnreadOf(ns, u);
      Reply(Ok, Some(|UnreadOf(ns, u)|), s.(notifications := ns'))
  }

  /** `DeleteAllByUserId`: the user id comes from the request body. */
  function DeleteAllByUserId(s: Store, userId: Option<Id>): (r: Reply<()>)
    ensures Missing(userId) ==> r.status == BadRequest && r.store == s
    ensures !Missing(userId) ==>
              && r.status == Ok
              && (forall id :: id in r.store.notifications ==> r.store.notifications[id].userId != userId.value)
              && (forall id :: id in s.notifications && s.notifications[id].userId != userId.value ==>
                    id in r.store.notifications)
    ensures forall id :: id in r.store.notifications ==>
              id in s.notifications && r.store.notifications[id] == s.notifications[id]
    ensures OnlyNotificationsDiffer(s, r.store)
  {
    if Missing(userId) then Reply(BadRequest, (), s)
    else Reply(Ok, (), s.(notifications := KeepWhere(s.notifications, (n: Notification) => n.userId != userId.value)))
  }

  // ---------------------------------------------------------------------------
  // Properties over several requests

  /** Marking a notification read twice has the effect of marking it once. */
  lemma MarkAsReadIdempotent(s: Store, id: Option<Id>)
    ensures MarkAsRead(MarkAsRead(s, id).store, id) == MarkAsRead(s, id)
  {
  }

  /** A second "mark all as read" for the same user modifies nothing and
      reports a count of 0 with status 200. */
  lemma MarkAllAsReadTwiceCountsZero(s: Store, userId: Option<Id>)
    requires !Missing(userId)
    ensures var once := MarkAllAsRead(s, userId);
            var twice := MarkAllAsRead(once.store, userId);
            twice.status == Ok && twice.body == Some(0) && twice.store == once.store
  {
  }

  /** The count reported by "mark all as read" is the number of notifications
      in the user's listing that were unread. */
  lemma MarkAllAsReadCountsUnreadListed(s: Store, u: Id)
    requires u != ""
    ensures var listed := GetAllByUserId(s, Some(u)).body.value;
            MarkAllAsRead(s, Some(u)).body == Some(|set id | id in listed && !listed[id].isRead|)
  {
    var listed := GetAllByUserId(s, Some(u)).body.value;
    var r := MarkAllAsRead(s, Some(u));
    assert Changed(s.notifications, r.store.notifications) == set id | id in listed && !listed[id].isRead;
  }

  /** "Delete all" for a user removes exactly the notifications that user's
      listing returns: the listing and what is left split the collection. */
  lemma DeleteAllSplitsCollection(s: Store, u: Id)
    requires u != ""
    ensures var listed := GetAllByUserId(s, Some(u)).body.value;
            var left := DeleteAllByUserId(s, Some(u)).store.notifications;
            && listed.Keys !! left.Keys
            && listed.Keys + left.Keys == s.notifications.Keys
            && |listed| + |left| == |s.notifications|
  {
  }

  /** After "delete all" the user's listing is empty, and still a success. */
  lemma DeleteAllThenListIsEmpty(s: Store, u: Id)
    requires u != ""
    ensures var after := GetAllByUserId(DeleteAllByUserId(s, Some(u)).store, Some(u));
            after.status == Ok && after.body == Some(map[])
  {
  }

  /** A deleted notification can no longer be fetched. */
  lemma DeleteThenGetIsNotFound(s: Store, id: Id)
    requires id != ""
    ensures GetById(DeleteById(s, Some(id)).store, Some(id)).status == NotFound
  {
  }
}
