/** The document store the two controllers read and write: four collections,
    each a finite map from a document id to its record. Only the fields the
    controllers look at are kept. Every handler is modelled as a pure function
    from a store and its request input to a Reply carrying the HTTP status, the
    response payload and the store after the handler's writes.
 */
module DocumentStore {

  /** Document and user ids are opaque strings. */
  type Id = string

  datatype Option<T> = None | Some(value: T)

  /** A request field read from the body, the path or the query string. It is
      rejected by the handlers' `!field` test when it is absent or the empty
      string (the two falsy values a string field can take). */
  predicate Missing(field: Option<Id>)
  {
    field.None? || field.value == ""
  }

  /** A proposed pairing of two reported items, awaiting confirmation by the
      owner on each side. */
  datatype Match = Match(
    userId1: Id,
    userId2: Id,
    item1Id: Id,
    item2Id: Id,
    user1Confirmed: bool,
    user2Confirmed: bool)

  /** A notification addressed to one user about one match. Some notification
      documents also carry the ids of the two items involved. */
  datatype Notification = Notification(
    userId: Id,
    matchId: Id,
    isRead: bool,
    item1Id: Option<Id>,
    item2Id: Option<Id>)

  datatype Item = Item(isResolved: bool)

  datatype ChatMessage = ChatMessage(matchId: Id)

  datatype Store = Store(
    matches: map<Id, Match>,
    notifications: map<Id, Notification>,
    items: map<Id, Item>,
    chats: map<Id, ChatMessage>)

  /** The HTTP statuses the handlers answer with: 200, 400, 403 and 404
      (the 500 path is not modelled). */
  datatype Status = Ok | BadRequest | Forbidden | NotFound

  /** What a handler produces: the status it sends, the payload that matters
      for the model, and the store after its writes. */
  datatype Reply<T> = Reply(status: Status, body: T, store: Store)

  /** The documents of a collection that satisfy `keep`, unchanged: the effect
      of a `find` with that filter, and of a `deleteMany` with its negation. */
  function KeepWhere<T>(m: map<Id, T>, keep: T -> bool): (r: map<Id, T>)
    ensures r.Keys <= m.Keys
    ensures forall id :: id in m ==> (id in r <==> keep(m[id]))
    ensures forall id :: id in r ==> r[id] == m[id]
  {
    map id | id in m && keep(m[id]) :: m[id]
  }

  /** `deleteMany({ matchId })` on the notification collection: used both when
      a match is deleted and when it is confirmed. */
  function DropNotificationsOfMatch(ns: map<Id, Notification>, matchId: Id): (r: map<Id, Notification>)
    ensures forall id :: id in r ==> r[id].matchId != matchId
    ensures forall id :: id in ns && ns[id].matchId != matchId ==> id in r && r[id] == ns[id]
    ensures forall id :: id in r ==> id in ns && r[id] == ns[id]
  {
    KeepWhere(ns, (n: Notification) => n.matchId != matchId)
  }

  /** Dropping a match's notifications twice drops nothing more. */
  lemma DropNotificationsOfMatchIdempotent(ns: map<Id, Notification>, matchId: Id)
    ensures DropNotificationsOfMatch(DropNotificationsOfMatch(ns, matchId), matchId)
            == DropNotificationsOfMatch(ns, matchId)
  {
  }
}
