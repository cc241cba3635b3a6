# fono-backend request logic in Dafny

This project models the request-level logic of the fono-backend Express
server. Three of its four routers are modules over an in-memory table, a
sequence of rows in insertion order; `PusherAuth` is pure functions over
strings.

- **Chat messages** (`ChatMessages`). POST validates the sender and the
  content and defaults `messageType` to `"text"`. It appends one row and
  answers with the non-sensitive columns only. GET picks one of two SELECTs
  and binds its parameters. It orders the selected rows by `created_at` and
  decrypts each row on its own: a row that fails to decrypt gets the
  placeholder `"[Could not decrypt message]"` and `decryptionError`.
- **Realtime channels** (`PusherAuth`). A user id maps to
  `private-chat-<id>`, with `|` replaced by `_` and `.` by `-`. `/auth`
  grants a channel only when it equals that name. `/typing` validates its
  input in a fixed order and triggers `user-typing-<action>` on the
  target's channel.
- **Items** (`FonoItems`). Five CRUD handlers. Each filters by
  `id AND user_id`, so another user's item answers 404 like a missing one.
  The PUT handler builds its SET clauses and parameter list step by step
  with a running placeholder index. That build is a loop with verified
  invariants.
- **User profiles** (`Users`). `/me` creates a profile only when none
  exists. It derives a fallback email and display name. `/profile` is a
  COALESCE update and `/status` a whitelisted one. The module also holds
  the list and lookup handlers.

Shared pieces:
- `Http` holds request values. A body member is `Undefined`, `Null` or
  `Str(s)`, and `Truthy`/`Present` give JavaScript truthiness.
  `Reply` is a status with a body or an error message.
- `Strings` holds character replacement, the text before the first `@`,
  and the text order used for `ORDER BY display_name`.
- `Seqs` holds `WHERE` as `Filter` and `ORDER BY` as `SortBy`.
  `SortBy` is an insertion sort. Its lemmas promise only a sorted
  permutation, because SQL fixes no order among equal keys.

The stores (`MessageTable`, `ItemTable`, `ProfileTable`) are classes.
Their handlers are methods that change the `rows` field. Read-only
handlers return the response, and the message and item listings also
return the fetched rows as a ghost value. SQL UPDATE and DELETE act on every row their
WHERE matches. Each table's `Valid()` keeps the key unique: the item id,
the message id, or the profile's user id. Lemmas show that each
owner-scoped update or delete therefore touches exactly one row.

Two consequences of the code are worth stating:
- The channel mapping is not injective. `PusherAuth.SanitizeNotInjective`
  shows that `a|b` and `a_b` share a channel.
- `/auth` has no check for a missing subject. Without one, the expected
  channel is the literal `private-chat-undefined`
  (`PusherAuth.MissingSubjectChannel`).

## Model

| member | source | states |
|---|---|---|
| `Strings.ReplaceIn` | src/routes/pusherAuth.ts:26 | a global single-character replace keeps the length, replaces exactly the targeted characters and keeps every other one |
| `Strings.LocalPart` | src/routes/users.ts:58 | `split('@')[0]` is a prefix of the email without '@' that stops at the first '@' |
| `Strings.LocalPartOfJoin` | src/routes/users.ts:55-58 | the text before the first '@' of `a + "@" + b` is that of `a`, and all of `a` when `a` holds no '@' |
| `Strings.StrLeTotal` | src/routes/users.ts:24 | any two display names compare under the assumed collation |
| `Strings.StrLeTransitive` | src/routes/users.ts:24 | the assumed collation is transitive |
| `Seqs.Filter` | src/routes/chatMessages.ts:59-63 | a WHERE returns exactly the table rows that satisfy it, and no more rows than the table has |
| `Seqs.FilterAppend` | src/routes/chatMessages.ts:37-41 | an inserted row is selected after all earlier rows, exactly when it satisfies the WHERE |
| `Seqs.FilterAllBut` | src/routes/fonoItems.ts:149-152 | a WHERE that rejects exactly one row removes that row and nothing else |
| `Seqs.FilterKeepsAll` | src/routes/fonoItems.ts:149-152 | a WHERE that accepts every row keeps the table as it is |
| `Seqs.FilterCongruent` | src/routes/chatMessages.ts:59-71 | two WHERE conditions that agree on every row select the same rows |
| `Seqs.InsertBy` | src/routes/chatMessages.ts:62 | inserting into an ordered result adds exactly that element |
| `Seqs.SortBy` | src/routes/chatMessages.ts:62 | ORDER BY returns a permutation of the selected rows |
| `Seqs.InsertBySorted` | src/routes/chatMessages.ts:62 | inserting into a sorted result under a total preorder keeps it sorted |
| `Seqs.SortBySorted` | src/routes/chatMessages.ts:62 | ORDER BY under a total preorder returns a sorted permutation |
| `PusherAuth.SanitizeId` | src/routes/pusherAuth.ts:26 | the two chained replaces are one per-character substitution (`\|`→`_`, `.`→`-`); the length is kept and no `\|` or `.` remains |
| `PusherAuth.PrivateChannel` | src/routes/pusherAuth.ts:26-27 | the channel is `private-chat-` followed by the substituted id, character by character |
| `PusherAuth.Authorize` | src/routes/pusherAuth.ts:19-42 | access is granted iff the requested channel equals the expected name; otherwise 403 `Forbidden` and no `authorizeChannel` call |
| `PusherAuth.SameChannelIffSameSanitized` | src/routes/pusherAuth.ts:26-27 | two ids share a channel exactly when their sanitised forms are equal |
| `PusherAuth.AuthorizeOwnChannelOnly` | src/routes/pusherAuth.ts:26-34 | a user may join another id's channel only when both ids sanitise alike |
| `PusherAuth.SanitizeNotInjective` | src/routes/pusherAuth.ts:26 | the distinct ids `a\|b` and `a_b` get the same channel, and each may join the other's |
| `PusherAuth.SanitizeKeepsPlainId` | src/routes/pusherAuth.ts:26 | an id with no `\|` and no `.` is its own sanitised form |
| `PusherAuth.MissingSubjectChannel` | src/routes/pusherAuth.ts:23-27 | with no subject the expected channel is `private-chat-undefined`, which is also the channel of the user id "undefined" |
| `PusherAuth.Typing` | src/routes/pusherAuth.ts:45-88 | 401 without a user, then 400 for an action other than start/stop, then 400 without a target; success iff all three pass, with one event `user-typing-<action>` on the target's channel carrying the caller, the action and the timestamp |
| `PusherAuth.TypingReachesTargetChannel` | src/routes/pusherAuth.ts:66-78 | `/typing` and `/auth` derive the same channel: the event's channel is the one granted to the target and to any id that sanitises alike, and no other |
| `ChatMessages.DecryptRow` | src/routes/chatMessages.ts:77-98 | an entry keeps the row's metadata; it carries the plaintext when decryption succeeds, else the placeholder and `decryptionError` |
| `ChatMessages.DecryptAll` | src/routes/chatMessages.ts:77-99 | the response has one entry per fetched row, in the same position |
| `ChatMessages.DecryptFailureIsolated` | src/routes/chatMessages.ts:77-99 | a decryption failure on one row changes no other row's entry and not the length |
| `ChatMessages.SelectQuery` | src/routes/chatMessages.ts:59-71 | the chosen SELECT with its bound `$1`/`$2` matches exactly the rows the user sent or received, or, with a participant, the rows between the two in either direction |
| `ChatMessages.CreatedAscIsPreorder` | src/routes/chatMessages.ts:62 | ordering by `created_at` is a total preorder |
| `ChatMessages.ConversationIsSymmetric` | src/routes/chatMessages.ts:65-69 | both participants of a conversation fetch the same rows |
| `ChatMessages.SentMessageJoinsConversation` | src/routes/chatMessages.ts:37-41 | a message sent from u to v adds exactly that row to the conversation both of them fetch |
| `ChatMessages.MessageTable.Send` | src/routes/chatMessages.ts:21-48 | 401 before 400, both leaving the table unchanged; otherwise exactly one row is appended with a fresh id and the caller as sender, `messageType` defaults to "text" only when undefined, and 201 carries only id, sender, receiver, time, read status and type |
| `ChatMessages.MessageTable.List` | src/routes/chatMessages.ts:51-106 | 401 without a user; otherwise the decrypted entries of a non-decreasing `created_at` permutation of exactly the wanted rows |
| `FonoItems.Views` | src/routes/fonoItems.ts:28-32 | the response has one item per fetched row, in the same position |
| `FonoItems.FindOwned` | src/routes/fonoItems.ts:73-81 | the lookup finds the first row with that id owned by the caller, or reports that none exists |
| `FonoItems.ForeignItemNotFound` | src/routes/fonoItems.ts:74-81 | an item that exists but belongs to someone else is not found |
| `FonoItems.CreatedItemIsFound` | src/routes/fonoItems.ts:52-56 | a created item is the one its owner then finds under its id |
| `FonoItems.CreatedDescIsPreorder` | src/routes/fonoItems.ts:29 | newest-first ordering is a total preorder |
| `FonoItems.Patched` | src/routes/fonoItems.ts:109-122 | a provided field (string or null) is written; an undefined one is kept; id, owner and creation time stay and `updated_at` is set |
| `FonoItems.PatchOwnedTouchesOnlyTarget` | src/routes/fonoItems.ts:118-125 | with unique ids the UPDATE patches only the caller's matching row and changes nothing when there is none |
| `FonoItems.DeleteRemovesOnlyTarget` | src/routes/fonoItems.ts:149-152 | with unique ids the DELETE removes exactly the caller's matching row and nothing when there is none |
| `FonoItems.UniqueIdsAfterRemove` | src/routes/fonoItems.ts:149-152 | removing a row keeps ids unique |
| `FonoItems.AssignedExtend` | src/routes/fonoItems.ts:109-116 | pushing a new value leaves the values already bound to earlier placeholders unchanged |
| `FonoItems.BuildUpdate` | src/routes/fonoItems.ts:103-116 | `setClauses` starts with the timestamp clause; clause k carries `$(k+2)`, the 1-based position of its value; `values` is id, user, then one value per provided field; each column is bound exactly to its provided value |
| `FonoItems.ItemTable.List` | src/routes/fonoItems.ts:20-37 | 401 without a user; otherwise a non-increasing `created_at` permutation of exactly the caller's items |
| `FonoItems.ItemTable.Create` | src/routes/fonoItems.ts:40-61 | 401 before 400 for a missing or empty title, both leaving the table unchanged; otherwise one row owned by the caller with a fresh id is appended and 201 returned |
| `FonoItems.ItemTable.Get` | src/routes/fonoItems.ts:64-87 | 401 without a user; 404 when the caller owns no item with that id; otherwise that item |
| `FonoItems.ItemTable.Update` | src/routes/fonoItems.ts:90-137 | 401, then 400 when both fields are undefined; otherwise the table becomes the owner-scoped patch of only the provided fields, and 404 leaves it unchanged |
| `FonoItems.ItemTable.Delete` | src/routes/fonoItems.ts:140-163 | 401 without a user; 404 with the table unchanged; otherwise exactly the caller's matching row is removed and 204 returned |
| `Users.MaskId` | src/routes/users.ts:55 | the part of the fallback address before `@fono.local` is the id with every `\|` and `.` replaced by `-`, of the same length and otherwise unchanged |
| `Users.DisplayName` | src/routes/users.ts:58-62 | name if non-empty, else nickname if non-empty, else the email's text before its first '@' |
| `Users.FallbackDisplayName` | src/routes/users.ts:55-62 | with no email, name or nickname in the token, the email is the masked id plus `@fono.local` and the display name is the masked id up to its first '@'; with no '@' in the id it is the whole masked id |
| `Users.FindProfile` | src/routes/users.ts:45-53 | the lookup finds the first profile of the user, or reports that none exists |
| `Users.CreatedProfileIsFound` | src/routes/users.ts:45-72 | after `/me` creates a profile, the next lookup finds it, so a second `/me` inserts nothing |
| `Users.Coalesced` | src/routes/users.ts:112-121 | a missing or null display name or avatar keeps the old value; the status message is always overwritten, with NULL when missing or null; no other column changes |
| `Users.CoalescedIdempotent` | src/routes/users.ts:112-121 | sending the same `/profile` body twice has the effect of sending it once |
| `Users.UpdateUserTouchesOnlyTarget` | src/routes/users.ts:112-121 | with unique user ids an update changes only the caller's profile and nothing when there is none |
| `Users.DisplayNameAscIsPreorder` | src/routes/users.ts:21-24 | ordering by display name is a total preorder |
| `Users.ProfileTable.List` | src/routes/users.ts:19-32 | every profile, as a permutation sorted by display name |
| `Users.ProfileTable.Get` | src/routes/users.ts:80-100 | 404 exactly when no profile has that user id; otherwise a stored profile with that id |
| `Users.ProfileTable.Me` | src/routes/users.ts:35-77 | 401 without a subject; an existing profile is returned unchanged with nothing inserted; otherwise exactly one new profile is appended and returned |
| `Users.ProfileTable.UpdateProfile` | src/routes/users.ts:103-132 | 401; 404 with nothing changed; otherwise only the caller's row gets the COALESCE update |
| `Users.ProfileTable.UpdateStatus` | src/routes/users.ts:135-166 | 401 first, then 400 unless the status is online/offline/away; 404 with nothing changed; otherwise only the caller's status and `last_seen` change |

## Left out

- Encryption (src/utils/encryption.ts) is AES-256-GCM from Node's `crypto`. `Send` takes `encrypt` as a parameter standing for one call of the cipher, random IV included. `List` takes `decrypt` as an arbitrary partial function. No round trip and no tamper detection is stated. The key-length check at load time is not modelled.
- JWT verification is not modelled. The verified claims are an input: the subject as an optional string, and in `/me` the `Claims` record.
- `authorizeChannel` signing, the `trigger` transport and the 500 answers of `/auth` and `/typing` are left out. A successful request returns the call it would make.
- SQL errors and every 500 catch branch are left out, as are the logs.
- `CURRENT_TIMESTAMP` is the `now` parameter, and `/typing`'s ISO timestamp is a string parameter. The id sequences are a `nextId` counter.
- The schema is not part of this model. Column defaults are taken as follows: a new message's `read_status` is false; a new profile's `status`, `status_message` and `last_seen` are NULL. The `updated_at` column of `user_profiles` is never returned and is not modelled.
- Text order for `ORDER BY display_name` is code-point order, not the database collation.
- The `:id` path parameter is taken as an already parsed number. A non-numeric id makes the database fail (500), which is not modelled.
- Body members are modelled as undefined, null or a string. Numbers, objects and arrays in the body or query are not modelled, so neither is `.replace` throwing on a non-string `targetUserId`.
- `ChatMessages.MessageTable.List`: states the result as a sorted permutation of the wanted rows, weaker than one fixed order, because SQL leaves the order among equal `created_at` values open.
- `FonoItems.ItemTable.List`: states the result as a sorted permutation of the caller's items, for the same reason.
- `Users.ProfileTable.List`: states the result as a sorted permutation of all profiles, for the same reason.
- `FonoItems.BuildUpdate`: the handler tests `title` and then `description` in two `if` statements. The model runs the same steps as a loop over those two columns in that order.
- Requests are modelled as running one at a time, each handler as one atomic step. In the code, `/me` runs its SELECT and its INSERT as two separate queries, and another `/me` for the same user can run between them; both may then insert, or the second may fail on a unique key. The model does not capture that interleaving. `Users.UniqueUsers`, `Users.ProfileTable.Me` and the single-row results of the update handlers rely on one-at-a-time execution.
- src/db/connection.ts and src/index.ts (connection pool, server start-up) are not part of this model.
