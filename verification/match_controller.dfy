/** The match handlers: listing a user's matches, lookup and deletion by id,
    and the two-party confirmation protocol with its cleanup on completion.
 */
module MatchController {
  import opened DocumentStore

  /** `u` is one of the two participants of `m`. */
  predicate Involves(m: Match, u: Id)
  {
    m.userId1 == u || m.userId2 == u
  }

  /** The participant slot a confirming user occupies. */
  datatype Role = User1 | User2
  {
    function Other(): Role
    {
      match this
      case User1 => User2
      case User2 => User1
    }
  }

  /** The slot of `u` in `m`: user1 whenever `u` is userId1, so user1 wins
      when both participants are the same user. */
  function RoleOf(m: Match, u: Id): Role
  {
    if m.userId1 == u then User1 else User2
  }

  /** The confirmation flag of one slot. */
  function Confirmed(m: Match, role: Role): bool
  {
    match role
    case User1 => m.user1Confirmed
    case User2 => m.user2Confirmed
  }

  /** `after` is `before` with the same participants and items, and with no
      confirmation flag taken back. */
  predicate Grows(before: Match, after: Match)
  {
    && after.userId1 == before.userId1
    && after.userId2 == before.userId2
    && after.item1Id == before.item1Id
    && after.item2Id == before.item2Id
    && (before.user1Confirmed ==> after.user1Confirmed)
    && (before.user2Confirmed ==> after.user2Confirmed)
  }

  /** The `$set` of one slot's flag. */
  function SetConfirmed(m: Match, role: Role): (r: Match)
    ensures Confirmed(r, role)
    ensures Confirmed(r, role.Other()) == Confirmed(m, role.Other())
    ensures Grows(m, r)
  {
    match role
    case User1 => m.(user1Confirmed := true)
    case User2 => m.(user2Confirmed := true)
  }

  // ---------------------------------------------------------------------------
  // Lookup and deletion

  /** `getAllByUserId`: the user id comes from the path. */
  function GetAllByUserId(s: Store, userId: Id): (r: Reply<map<Id, Match>>)
    ensures r.status == Ok && r.store == s
    ensures forall id :: id in r.body <==> id in s.matches && Involves(s.matches[id], userId)
    ensures forall id :: id in r.body ==> r.body[id] == s.matches[id]
  {
    Reply(Ok, KeepWhere(s.matches, (m: Match) => Involves(m, userId)), s)
  }

  /** `getById`: the match id comes from the path. */
  function GetById(s: Store, id: Id): (r: Reply<Option<Match>>)
    ensures r.store == s
    ensures r.status == Ok <==> id in s.matches
    ensures r.status == Ok ==> r.body == Some(s.matches[id])
    ensures r.status != Ok ==> r.status == NotFound && r.body == None
  {
    if id in s.matches then Reply(Ok, Some(s.matches[id]), s)
    else Reply(NotFound, None, s)
  }

  /** `deleteById`: the match id comes from the path; the match's
      notifications go first, then the match. */
  function DeleteById(s: Store, id: Id): (r: Reply<()>)
    ensures id !in s.matches ==> r.status == NotFound && r.store == s
    ensures id in s.matches ==> r.status == Ok
    ensures id !in r.store.matches
    ensures forall mid :: mid in s.matches && mid != id ==> mid in r.store.matches && r.store.matches[mid] == s.matches[mid]
    ensures r.store.matches.Keys <= s.matches.Keys
    ensures id in s.matches ==> forall n :: n in r.store.notifications ==> r.store.notifications[n].matchId != id
    ensures forall n :: n in s.notifications && s.notifications[n].matchId != id ==>
              n in r.store.notifications && r.store.notifications[n] == s.notifications[n]
    ensures forall n :: n in r.store.notifications ==>
              n in s.notifications && r.store.notifications[n] == s.notifications[n]
    ensures r.store.items == s.items && r.store.chats == s.chats
  {
    if id !in s.matches then Reply(NotFound, (), s)
    else
      var notifications := DropNotificationsOfMatch(s.notifications, id);
      Reply(Ok, (), s.(matches := s.matches - {id}, notifications := notifications))
  }

  // ---------------------------------------------------------------------------
  // Confirmation

  /** The `$or` filter of the completion cleanup: a match touches the item pair
      {a, b} when either of its item slots holds either item. */
  predicate MatchTouches(m: Match, a: Id, b: Id)
  {
    m.item1Id == a || m.item2Id == b || m.item1Id == b || m.item2Id == a
  }

  /** The same filter applied to a notification's own optional item fields. */
  predicate NotificationTouches(n: Notification, a: Id, b: Id)
  {
    n.item1Id == Some(a) || n.item2Id == Some(b) || n.item1Id == Some(b) || n.item2Id == Some(a)
  }

  /** `findByIdAndUpdate(id, { isResolved: true })`: an absent item is left absent. */
  function ResolveItem(items: map<Id, Item>, id: Id): (r: map<Id, Item>)
    ensures r.Keys == items.Keys
    ensures id in items ==> r[id].isResolved
    ensures forall i :: i in items && i != id ==> r[i] == items[i]
  {
    if id in items then items[id := Item(true)] else items
  }

  /** The cleanup once both participants confirmed match `matchId`, whose items
      are `a` and `b`: both items resolved, the match's notifications and chat
      messages gone, the match gone, every match touching either item gone, and
      every notification touching either item gone. */
  function Complete(s: Store, matchId: Id, a: Id, b: Id): (r: Store)
    ensures Completed(s, r, matchId, a, b)
  {
    var items := ResolveItem(ResolveItem(s.items, a), b);
    var notifications := DropNotificationsOfMatch(s.notifications, matchId);
    var chats := KeepWhere(s.chats, (c: ChatMessage) => c.matchId != matchId);
    var matches := KeepWhere(s.matches - {matchId}, (m: Match) => !MatchTouches(m, a, b));
    var notifications' := KeepWhere(notifications, (n: Notification) => !NotificationTouches(n, a, b));
    Store(matches, notifications', items, chats)
  }

  /** The state the store is left in by the cleanup of `matchId` with items `a`
      and `b`, relative to the store `s` it started from; it fixes every
      collection entirely. */
  ghost predicate Completed(s: Store, s': Store, matchId: Id, a: Id, b: Id)
  {
    && s'.items.Keys == s.items.Keys
    && (forall i :: i in s.items ==>
          s'.items[i] == if i == a || i == b then Item(true) else s.items[i])
    && (forall c :: c in s'.chats <==> c in s.chats && s.chats[c].matchId != matchId)
    && (forall c :: c in s'.chats ==> s'.chats[c] == s.chats[c])
    && matchId !in s'.matches
    && (forall id :: id in s'.matches <==>
          id in s.matches && id != matchId && !MatchTouches(s.matches[id], a, b))
    && (forall id :: id in s'.matches ==> s'.matches[id] == s.matches[id])
    && (forall id :: id in s'.notifications <==>
          id in s.notifications && s.notifications[id].matchId != matchId
          && !NotificationTouches(s.notifications[id], a, b))
    && (forall id :: id in s'.notifications ==> s'.notifications[id] == s.notifications[id])
  }

  /** The outcome of a confirmation request. */
  datatype ConfirmBody =
    | MissingFields
    | MatchNotFound
    | NotParticipant
    | AlreadyConfirmed
    | PartiallyConfirmed(updated: Match, userConfirmed: Role, awaitingConfirmation: Role)
    | FullyConfirmed(updated: Match)

  /** The request names a match and a user. */
  predicate Given(matchId: Option<Id>, userId: Option<Id>)
  {
    !Missing(matchId) && !Missing(userId)
  }

  /** `confirmMatch`: `matchId` and `userId` come from the request body. */
  function Confirm(s: Store, matchId: Option<Id>, userId: Option<Id>): (r: Reply<ConfirmBody>)
    // the validation ladder: 400, 404, 403, then 400 "already confirmed"
    ensures !Given(matchId, userId) ==> r.status == BadRequest && r.body == MissingFields && r.store == s
    ensures r.status == NotFound <==> Given(matchId, userId) && matchId.value !in s.matches
    ensures r.status == Forbidden <==>
              Given(matchId, userId) && matchId.value in s.matches
              && !Involves(s.matches[matchId.value], userId.value)
    ensures r.body == AlreadyConfirmed <==>
              Given(matchId, userId) && matchId.value in s.matches
              && var m := s.matches[matchId.value];
                 Involves(m, userId.value) && Confirmed(m, RoleOf(m, userId.value))
    // past the missing-field check, the match's notifications are dropped whatever the outcome
    ensures Given(matchId, userId) ==>
              forall n :: n in r.store.notifications ==> r.store.notifications[n].matchId != matchId.value
    // a refused request changes nothing but those notifications
    ensures r.status != Ok && Given(matchId, userId) ==>
              && r.store.matches == s.matches && r.store.items == s.items && r.store.chats == s.chats
              && r.store.notifications == DropNotificationsOfMatch(s.notifications, matchId.value)
    // confirmation flags only ever move from false to true, and no match appears
    ensures forall id :: id in r.store.matches ==>
              id in s.matches && Grows(s.matches[id], r.store.matches[id])
    ensures r.status == Ok <==> r.body.PartiallyConfirmed? || r.body.FullyConfirmed?
    // a participant whose own flag is unset succeeds, and completes the match
    // exactly when the other flag was already set
    ensures Given(matchId, userId) && matchId.value in s.matches ==>
              var m := s.matches[matchId.value];
              Involves(m, userId.value) && !Confirmed(m, RoleOf(m, userId.value)) ==>
                && r.status == Ok
                && (r.body.FullyConfirmed? <==> Confirmed(m, RoleOf(m, userId.value).Other()))
    ensures r.body.PartiallyConfirmed? ==>
              && Given(matchId, userId) && matchId.value in s.matches
              && var before := s.matches[matchId.value];
                 var role := r.body.userConfirmed;
                 && Involves(before, userId.value)
                 && (role == User1 <==> before.userId1 == userId.value)
                 && r.body.awaitingConfirmation != role
                 && !Confirmed(before, role) && Confirmed(r.body.updated, role)
                 && !Confirmed(r.body.updated, r.body.awaitingConfirmation)
                 && !Confirmed(before, r.body.awaitingConfirmation)
                 && Grows(before, r.body.updated)
                 && r.store.matches == s.matches[matchId.value := r.body.updated]
                 && r.store.notifications == DropNotificationsOfMatch(s.notifications, matchId.value)
                 && r.store.items == s.items && r.store.chats == s.chats
    ensures r.body.FullyConfirmed? ==>
              && Given(matchId, userId) && matchId.value in s.matches
              && var before := s.matches[matchId.value];
                 && Involves(before, userId.value)
                 && !Confirmed(before, RoleOf(before, userId.value))
                 && Confirmed(before, RoleOf(before, userId.value).Other())
                 && r.body.updated.user1Confirmed && r.body.updated.user2Confirmed
                 && Grows(before, r.body.updated)
                 && Completed(s, r.store, matchId.value, before.item1Id, before.item2Id)
  {
    if !Given(matchId, userId) then Reply(BadRequest, MissingFields, s)
    else
      var id := matchId.value;
      var u := userId.value;
      var s1 := s.(notifications := DropNotificationsOfMatch(s.notifications, id));
      if id !in s1.matches then Reply(NotFound, MatchNotFound, s1)
      else
        var m := s1.matches[id];
        if !Involves(m, u) then Reply(Forbidden, NotParticipant, s1)
        else
          var role := RoleOf(m, u);
          if Confirmed(m, role) then Reply(BadRequest, AlreadyConfirmed, s1)
          else
            var updated := SetConfirmed(m, role);
            var s2 := s1.(matches := s1.matches[id := updated]);
            if updated.user1Confirmed && updated.user2Confirmed then
              Reply(Ok, FullyConfirmed(updated), Complete(s2, id, m.item1Id, m.item2Id))
            else
              Reply(Ok, PartiallyConfirmed(updated, role, role.Other()), s2)
  }

  // ---------------------------------------------------------------------------
  // Properties over several requests

  /** A deleted match can no longer be fetched. */
  lemma DeleteThenGetIsNotFound(s: Store, id: Id)
    ensures GetById(DeleteById(s, id).store, id).status == NotFound
  {
  }

  /** A user is refused with 403 on an existing match exactly when the match
      is not in that user's listing. */
  lemma ListingAgreesWithAuthorization(s: Store, matchId: Id, u: Id)
    requires matchId != "" && u != "" && matchId in s.matches
    ensures matchId in GetAllByUserId(s, u).body <==> Confirm(s, Some(matchId), Some(u)).status != Forbidden
  {
  }

  /** A participant who has just confirmed and repeats the request is answered
      400 "already confirmed", and the repeat changes nothing. */
  lemma RepeatedConfirmationIsRejected(s: Store, matchId: Option<Id>, userId: Option<Id>)
    requires Confirm(s, matchId, userId).body.PartiallyConfirmed?
    ensures var s' := Confirm(s, matchId, userId).store;
            var again := Confirm(s', matchId, userId);
            again.status == BadRequest && again.body == AlreadyConfirmed && again.store == s'
  {
  }

  /** The cleanup state is determined by the store it started from. */
  lemma CompletedIsUnique(s: Store, x: Store, y: Store, matchId: Id, a: Id, b: Id)
    requires Completed(s, x, matchId, a, b) && Completed(s, y, matchId, a, b)
    ensures x == y
  {
  }

  /** The two participants of an unconfirmed match confirm one after the
      other: the first is told the match is partially confirmed and the
      other side is awaited, the second completes it; afterwards the match
      is gone and the store is in the cleanup state computed from the store
      before the first request. */
  lemma MutualConfirmation(s: Store, matchId: Id, first: Id, second: Id)
    requires matchId != "" && first != "" && second != "" && first != second
    requires matchId in s.matches
    requires var m := s.matches[matchId];
             {m.userId1, m.userId2} == {first, second}
             && !m.user1Confirmed && !m.user2Confirmed
    ensures var m := s.matches[matchId];
            var r1 := Confirm(s, Some(matchId), Some(first));
            var r2 := Confirm(r1.store, Some(matchId), Some(second));
            && r1.status == Ok && r1.body.PartiallyConfirmed?
            && r1.body.userConfirmed == RoleOf(m, first)
            && r1.body.awaitingConfirmation == RoleOf(m, second)
            && r2.status == Ok && r2.body.FullyConfirmed?
            && GetById(r2.store, matchId).status == NotFound
            && Completed(s, r2.store, matchId, m.item1Id, m.item2Id)
  {
  }

  /** Which participant confirms first makes no difference to the final store. */
  lemma ConfirmationOrderIndependent(s: Store, matchId: Id)
    requires matchId != "" && matchId in s.matches
    requires var m := s.matches[matchId];
             m.userId1 != "" && m.userId2 != "" && m.userId1 != m.userId2
             && !m.user1Confirmed && !m.user2Confirmed
    ensures var m := s.matches[matchId];
            var a := Some(m.userId1);
            var b := Some(m.userId2);
            Confirm(Confirm(s, Some(matchId), a).store, Some(matchId), b).store
            == Confirm(Confirm(s, Some(matchId), b).store, Some(matchId), a).store
  {
    var m := s.matches[matchId];
    MutualConfirmation(s, matchId, m.userId1, m.userId2);
    MutualConfirmation(s, matchId, m.userId2, m.userId1);
    CompletedIsUnique(s,
      Confirm(Confirm(s, Some(matchId), Some(m.userId1)).store, Some(matchId), Some(m.userId2)).store,
      Confirm(Confirm(s, Some(matchId), Some(m.userId2)).store, Some(matchId), Some(m.userId1)).store,
      matchId, m.item1Id, m.item2Id);
  }

  /** A match whose two participants are the same user, with the user2 flag
      unset, is never completed: that user always confirms as user1, and the
      user2 flag stays unset. */
  lemma SelfMatchNeverCompletes(s: Store, matchId: Option<Id>, userId: Option<Id>)
    requires !Missing(matchId) && matchId.value in s.matches
    requires var m := s.matches[matchId.value];
             m.userId1 == m.userId2 && !m.user2Confirmed
    ensures var r := Confirm(s, matchId, userId);
            && !r.body.FullyConfirmed?
            && matchId.value in r.store.matches
            && !r.store.matches[matchId.value].user2Confirmed
  {
  }
}
