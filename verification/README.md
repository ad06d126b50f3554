# Match and notification controllers of a lost-and-found backend, in Dafny

The backend pairs reported lost items with found items. A **match** links two
items and their two owners (`userId1`, `userId2`). Each owner confirms it by
setting a flag (`user1Confirmed`, `user2Confirmed`). Owners are told about
matches through **notifications**. This project models the two HTTP
controllers over that data:

- the match controller: list a user's matches, get and delete a match by id,
  and `confirmMatch`, the two-party confirmation protocol. When the second
  owner confirms, a cleanup runs. It resolves both items and deletes the
  match's chat messages and notifications. It also deletes every match and
  every notification that refers to either item.
- the notification controller: list by user, get, delete, mark one read, mark
  all of a user's notifications read, and delete all of a user's
  notifications.

The document database becomes `DocumentStore.Store`: four finite maps from
document id to record (matches, notifications, items, chat messages). Each
record keeps only the fields the controllers read or write. Each handler is a
pure function `(store, request input) -> Reply(status, body, store')`. A request
field that the source tests with `!field` is an `Option<string>`, and it counts
as missing when absent or empty (`DocumentStore.Missing`). Query results are
maps from id to record, because the database does not promise an order.

Files:

- `store.dfy` (module `DocumentStore`): records, the store, statuses, the
  filter used by every `find`/`deleteMany`, and deletion of a match's
  notifications.
- `match_controller.dfy` (module `MatchController`): the match handlers, the
  confirmation state machine and its cleanup, and properties relating several
  requests.
- `notification_controller.dfy` (module `NotificationController`): the
  notification handlers and properties relating several requests.

The comment above the cleanup's match deletion
(`Backend/src/controllers/match_controller.ts:113`) speaks of matches related to
both items. The `$or` filter on the next line removes every match that holds
either item in either slot, even a match sharing only one of the items.
`MatchController.MatchTouches` is that filter as written, and the notification
filter on line 117 is modelled the same way (`MatchController.NotificationTouches`).

## Model

| member | source | states |
|---|---|---|
| DocumentStore.DropNotificationsOfMatch | Backend/src/controllers/match_controller.ts:61-63 | `deleteMany({ matchId })`: no notification of the match is left, every other notification is kept unchanged, and nothing is rewritten: every survivor is an unchanged original |
| DocumentStore.DropNotificationsOfMatchIdempotent | Backend/src/controllers/match_controller.ts:104-105 | repeating the deletion of a match's notifications (as the full-confirmation cleanup does) removes nothing more |
| MatchController.GetAllByUserId | Backend/src/controllers/match_controller.ts:8-19 | status 200; the result holds exactly the matches in which the user is `userId1` or `userId2`, with their stored contents; the store is unchanged |
| MatchController.GetById | Backend/src/controllers/match_controller.ts:21-32 | 200 with the stored match exactly when the id is present, otherwise 404 with no match; the store is unchanged |
| MatchController.DeleteById | Backend/src/controllers/match_controller.ts:34-51 | absent id: 404, store unchanged; present: 200, the match and every notification with its `matchId` are gone, all other matches and notifications are kept as they were, every surviving notification is an unchanged original, items and chats untouched |
| MatchController.SetConfirmed | Backend/src/controllers/match_controller.ts:76-90 | the `$set` raises the caller's flag and leaves the other flag, the participants and the items as they were |
| MatchController.ResolveItem | Backend/src/controllers/match_controller.ts:98-102 | an existing item becomes resolved, an absent item id creates nothing, other items are unchanged |
| MatchController.Complete | Backend/src/controllers/match_controller.ts:96-123 | after the cleanup: both items that exist are resolved and other items unchanged; exactly the chat messages of other matches remain; the match is gone; exactly the matches that hold neither item in either slot remain; exactly the notifications that belong to another match and hold neither item remain |
| MatchController.Confirm | Backend/src/controllers/match_controller.ts:54-139 | the validation ladder: missing field gives 400 with the store unchanged; an unknown match gives 404; a caller who is neither participant gives 403; a caller whose flag is already set gives 400 "already confirmed". Past the field check the match's notifications are always gone. A refused request changes nothing else. A participant whose own flag is unset gets 200, and the reply is FULLY_CONFIRMED exactly when the other flag was already set. No flag is ever cleared and no match is created. A partial confirmation sets only the caller's flag and changes nothing else besides dropping the match's notifications. Its role is user1 exactly when the caller is `userId1`, and it names the opposite role as awaited. A full confirmation leaves the store in the cleanup state computed from the store before the request |
| MatchController.DeleteThenGetIsNotFound | Backend/src/controllers/match_controller.ts:21-51 | after deleting a match, fetching it answers 404 |
| MatchController.ListingAgreesWithAuthorization | Backend/src/controllers/match_controller.ts:8-74 | for an existing match, a user sees it in their listing exactly when confirming it is not refused with 403 |
| MatchController.RepeatedConfirmationIsRejected | Backend/src/controllers/match_controller.ts:80-83 | a participant repeating a partial confirmation gets 400 "already confirmed" and the store does not change |
| MatchController.CompletedIsUnique | Backend/src/controllers/match_controller.ts:96-117 | the cleanup state is a function of the store it started from |
| MatchController.MutualConfirmation | Backend/src/controllers/match_controller.ts:77-123 | for an unconfirmed match between two different users, in either order: the first confirmation is partial and awaits the other role, the second is full, the match is then not found, and the store is in the cleanup state |
| MatchController.ConfirmationOrderIndependent | Backend/src/controllers/match_controller.ts:77-123 | the store after both confirmations does not depend on which participant confirmed first |
| MatchController.SelfMatchNeverCompletes | Backend/src/controllers/match_controller.ts:76-97 | when `userId1 == userId2` and the user2 flag is unset, no confirmation request completes the match and the user2 flag stays unset |
| NotificationController.GetAllByUserId | Backend/src/controllers/notification_controller.ts:7-22 | missing user id: 400; otherwise 200 with exactly that user's notifications, possibly none; the store is unchanged |
| NotificationController.GetById | Backend/src/controllers/notification_controller.ts:24-45 | missing id: 400; absent: 404; present: 200 with the stored notification; the store is unchanged |
| NotificationController.DeleteById | Backend/src/controllers/notification_controller.ts:47-68 | missing id: 400 and absent id: 404, store unchanged; present: 200 and exactly that notification is removed; other collections untouched |
| NotificationController.MarkAsRead | Backend/src/controllers/notification_controller.ts:70-96 | missing id: 400, absent: 404, store unchanged; present: 200 with the stored updated record, read, with its other fields unchanged; all other notifications and collections unchanged |
| NotificationController.MarkAllAsRead | Backend/src/controllers/notification_controller.ts:98-122 | missing user id: 400, store unchanged; otherwise 200, none of the user's notifications is unread afterwards, the reported count is the number of documents that changed, only `isRead` changes and only from false to true, other users' notifications are unchanged |
| NotificationController.DeleteAllByUserId | Backend/src/controllers/notification_controller.ts:124-138 | missing user id: 400, store unchanged; otherwise 200 even when nothing matched, none of the user's notifications remains, every other notification is kept unchanged |
| NotificationController.MarkAsReadIdempotent | Backend/src/controllers/notification_controller.ts:79-83 | marking a notification read twice gives the same reply and store as marking it once |
| NotificationController.MarkAllAsReadTwiceCountsZero | Backend/src/controllers/notification_controller.ts:107-115 | a second "mark all as read" for the same user answers 200 with a count of 0 and changes nothing |
| NotificationController.MarkAllAsReadCountsUnreadListed | Backend/src/controllers/notification_controller.ts:107-115 | the reported count equals the number of unread notifications in the user's listing |
| NotificationController.DeleteAllSplitsCollection | Backend/src/controllers/notification_controller.ts:131-132 | "delete all" removes exactly what the user's listing returns: the listing and the remaining notifications are disjoint, together make up the collection, and their sizes add up |
| NotificationController.DeleteAllThenListIsEmpty | Backend/src/controllers/notification_controller.ts:131-132 | after "delete all", the user's listing is an empty success |
| NotificationController.DeleteThenGetIsNotFound | Backend/src/controllers/notification_controller.ts:47-68 | after deleting a notification, fetching it answers 404 |

## Left out

- The `catch` blocks that answer 500. They fire only when the database client throws (a malformed id cast, a lost connection), and that client is not part of this model.
- The "Match not found after update" 404 (`Backend/src/controllers/match_controller.ts:92-94`). Each handler is one atomic step here, and the match was found just before the update, so this answer cannot occur.
- `Promise.all` parallelism and races between concurrent requests, including the gap between the "already confirmed" check and the update. Handlers are modelled as sequential steps.
- Response messages and JSON shapes. Only the status, the status tag of a confirmation and the records or count returned are kept.
- Database query semantics beyond equality and `$or` of equalities. Ids are compared as plain strings, with no ObjectId casting. The schemas of the four collections are not part of this model. The participant check uses strict `!==` against the request string, so the model assumes `userId1`/`userId2` are stored as strings.
- Query-string values that are arrays or objects. A request field is either absent or a string.
- Document fields the controllers never read or write.
