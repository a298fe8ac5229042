# Discord-Clyde-API: verified model of the conversation core

The service puts an HTTP front on a chat backend. Each conversation identifier
maps to one text channel in a parent server (the guild). `GET /` relays a prompt
into the conversation's channel and answers with the responder's first reply
there. `DELETE /` removes the conversation's channel. A sweep deletes every
channel once the server holds more than a set number of them.

This Dafny project models the logic that `index.mjs` adds on top of its
libraries:

- `Text` (text.dfy): JavaScript strings as sequences of UTF-16 code units. It
  holds the ASCII lower-casing and the identifier pattern `^[a-zA-Z0-9]{1,32}$`,
  written as an explicit predicate.
- `Validation` (validation.dfy): the validators of both routes, as functions
  returning `Reject(error)` or `Proceed(id)`. Their checks come in the source's
  order.
- `Registry` (registry.dfy): the server's channels as a `seq<Channel>` in the
  backend's list order. Lookup, resolve-or-create, delete-by-conversation and
  pruning are specification functions. The class `Server` holds the channel
  list that the backend calls change in place. Its methods are proved against
  those functions. `DeleteAllChannels` deletes channel by channel in a loop.
- `Correlation` (correlation.dfy): the `messageCreate` listener, over the finite
  sequence of events that arrive after the prompt is sent. It is a loop that
  stops at the first reply, proved equal to the function `FirstReply`.
- `Handlers` (handlers.dfy): the two routes built from the parts above. For each
  route, a function gives the response and the new channel list, and a method
  runs the route on a `Server`.

Snowflakes (channel and user identifiers) are strings in the client library.
They are `nat` here, because the code only compares them for equality. The
server identifier, the responder identifier and the prune ceiling are
parameters, not environment reads. A created channel gets its identifier from
the `Server`'s counter `nextId`. This stands for the backend's supply of unique
snowflakes.

`DELETE /` answers an empty identifier with "Please provide a conversationID"
(index.mjs:160). This is not the "Please provide a message and conversationID"
of `GET /`. The model follows the code.

## Model

| member | source | states |
|---|---|---|
| Text.ToLowerAscii | index.mjs:105 | lower-casing keeps the length, leaves no upper-case ASCII letter, changes each unit only in letter case, and keeps each unit's membership in `[a-zA-Z0-9]` |
| Text.LowerPreservesPattern | index.mjs:121 | the lower-cased identifier matches `^[a-zA-Z0-9]{1,32}$` iff the raw identifier does |
| Text.MatchesIdPattern | index.mjs:121 | the regular expression `^[a-zA-Z0-9]{1,32}$` holds of an identifier iff its lower-cased form is a conversation identifier: 1 to 32 units, each a lower-case ASCII letter or a digit |
| Text.CaseFold | index.mjs:105 | two identifiers lower-case to the same string iff they differ only in the case of ASCII letters |
| Validation.ValidateGet | index.mjs:96-126 | not ready gives "Discord is not ready yet" whatever the other inputs. Otherwise an empty message or id gives "Please provide a message and conversationID". Otherwise a message over 1850 units gives "too long", even if the id is invalid. Otherwise an id failing the pattern gives "Invalid conversationID". It proceeds iff ready, the message has 1 to 1850 units and the raw id matches the pattern, and then the id is the lower-cased raw id |
| Validation.ValidateDelete | index.mjs:148-170 | not ready gives "Discord is not ready yet". Otherwise an empty id gives "Please provide a conversationID". Otherwise an id failing the pattern gives "Invalid conversationID". It proceeds iff ready and the raw id matches the pattern, with the lower-cased id |
| Validation.LengthBoundary | index.mjs:114-119 | a message of exactly 1850 code units is not refused as too long |
| Validation.CaseInsensitive | index.mjs:105-126 | ids that differ only in ASCII case get the same outcome from both validators |
| Registry.FindIndex | index.mjs:44 | the position found holds a channel of that name and no earlier channel has it; none is found iff no channel has the name |
| Registry.FindByName | index.mjs:41-46 | `getChannelByName` returns none iff no channel has the name, else the first channel in list order with that name |
| Registry.RemoveId | index.mjs:179 | after deleting identifier `id`, the list holds exactly the channels whose identifier is not `id`; it is never longer, and if it keeps its length no channel had `id` |
| Registry.RemoveAbsentId | index.mjs:179 | deleting an identifier that no channel has leaves the list unchanged |
| Registry.RemoveIdAt | index.mjs:179 | with unique identifiers, deleting the channel at position i leaves `s[..i] + s[i+1..]`: every other channel, in order |
| Registry.RemoveIdKeepsDistinct | index.mjs:179 | deleting a channel keeps channel identifiers unique |
| Registry.Resolved | index.mjs:128-131 | if a channel has the name, the list is unchanged and that channel is used; otherwise exactly one channel with that name and the fresh identifier is appended and used. Either way, a lookup afterwards finds the channel used |
| Registry.ResolveIdempotent | index.mjs:128-131 | a second resolve of the same name is a no-op and returns the same channel |
| Registry.ResolvedKeepsDistinct | index.mjs:128-131 | resolving with a fresh identifier keeps identifiers unique and grows the list by at most one |
| Registry.DeletedConversation | index.mjs:172-184 | "does not exist" iff no channel has the name, and then the list is unchanged; otherwise "deleted" and the list is shorter |
| Registry.DeleteRemovesFound | index.mjs:172-184 | with unique identifiers, the delete path removes exactly the first channel of that name and leaves the rest in order |
| Registry.DeleteTwice | index.mjs:172-184 | if at most one channel has the name, no channel has it after a delete, and a second delete reports "does not exist" |
| Registry.Pruned | index.mjs:63-71 | the pruned list has at most `max` channels and is either the old list or empty. It is the old list when the count is at most `max` |
| Registry.Server.GetChannelByName | index.mjs:41-46 | the fetched lookup returns the first channel of that name, or none |
| Registry.Server.GetChannelCount | index.mjs:57-61 | the count is the number of channels in the server |
| Registry.Server.CreateChannel | index.mjs:27-39 | appends one channel with the given name and an identifier no existing channel has, and changes nothing else |
| Registry.Server.DeleteChannel | index.mjs:53 | the server drops the channel with that identifier, and identifiers stay unique |
| Registry.Server.ResolveOrCreate | index.mjs:128-131 | the channel used and the new list are those of `Resolved` |
| Registry.Server.DeleteConversation | index.mjs:172-184 | the reply and the new list are those of `DeletedConversation` |
| Registry.Server.DeleteAllChannels | index.mjs:48-55 | deleting the fetched channels one by one leaves the server with no channel |
| Registry.Server.PruneChannels | index.mjs:63-71 | the new list is `Pruned(old list, max)`, with `max` defaulting to 450: all channels go when there are more than `max`, none otherwise |
| Correlation.IsReply | index.mjs:137 | the listener's test: an event is a reply iff it was posted in the request's channel and its author is the responder |
| Correlation.FirstReplyIndex | index.mjs:137 | the position found holds an event in the channel by the responder, with none before it; none is found iff no event qualifies |
| Correlation.FirstReply | index.mjs:135-141 | the response is none iff no event is in the channel by the responder; otherwise it is the content of the first such event |
| Correlation.FirstReplyAt | index.mjs:135-141 | a reply with no reply before it is the response |
| Correlation.OtherEventIgnored | index.mjs:137 | an event from another channel or another author, inserted anywhere, never changes the response |
| Correlation.ResolvesOnce | index.mjs:135-141 | once a reply has arrived, later events do not change the response |
| Correlation.AwaitReply | index.mjs:135-141 | the listener loop's result is the content of the first reply in the stream, or none |
| Handlers.GetTurn | index.mjs:96-146 | `GET /` answers 400 iff validation rejects; a rejection answers the validator's error text and leaves the channel list unchanged. An accepted request leaves a channel named by the lower-cased id: the list is unchanged iff the conversation's channel existed; otherwise exactly that channel, with the fresh identifier, is appended. It answers 200 `{response}` with the content of the first event in that channel by the responder, and gives no answer iff no such event arrives |
| Handlers.DeleteTurn | index.mjs:148-185 | `DELETE /` answers 400 iff validation rejects, with the validator's error text, leaving the list unchanged. An absent conversation gives 200 `{error: "Conversation does not exist"}` with the list unchanged. A present one gives 200 `{response: "Conversation deleted", success: true}` with a shorter list |
| Handlers.DeleteTurnRemovesFound | index.mjs:172-184 | with unique identifiers, an accepted `DELETE /` whose conversation's first channel is at position i answers 200 `{response: "Conversation deleted", success: true}` and leaves `s[..i] + s[i+1..]` |
| Handlers.GetNotReady | index.mjs:97-102 | before the client is ready, `GET /` answers 400 "Discord is not ready yet", whatever the other inputs, and no channel changes |
| Handlers.DeleteNotReady | index.mjs:149-154 | before the client is ready, `DELETE /` answers 400 "Discord is not ready yet", whatever the identifier, and no channel changes |
| Handlers.TurnsIgnoreCase | index.mjs:105-131 | ids differing only in ASCII case give the same response and the same channel list on both routes |
| Handlers.SecondTurnReusesChannel | index.mjs:128-131 | after an accepted `GET /`, any second `GET /` for the same conversation in any letter case, accepted or not, does not change the channel list |
| Handlers.HandleGet | index.mjs:96-146 | running `GET /` on a server gives the response and channel list of `GetTurn`, and identifiers stay unique; the responder defaults to `Correlation.DefaultResponderId` |
| Handlers.HandleDelete | index.mjs:148-185 | running `DELETE /` on a server gives the response and channel list of `DeleteTurn`; an accepted request removes exactly the first channel of the conversation's name, at position i, leaving `old[..i] + old[i+1..]`, and changes nothing when there is none |

## Left out

- Express setup, CORS, the rate limiter (with its `parseInt` fallback), `app.listen` and `GET /healthcheck` are HTTP plumbing (index.mjs:7-8, 77-94, 189-192).
- Client login, the `ready` event and the 15-minute `setInterval` that calls `pruneChannels` are process lifecycle and timing (index.mjs:11-20, 73-75, 187). The readiness flag is an input to the routes instead.
- The permission overwrite that hides a new channel from `@everyone` (index.mjs:31-36) is access control inside the client library. Creation only appends a channel with a fresh identifier.
- `sendMessageToChannel` and the prompt text `<@responder> message` (index.mjs:22-25, 133) are not modelled. The send is a call into the backend with no effect on the channel list. The events passed to the routes are the ones that arrive after it.
- `deleteAllChannels` starts its deletions from un-awaited `async` callbacks, and every `GET /` leaves a `messageCreate` listener registered forever (index.mjs:51-54, 136). The model deletes sequentially and has no concurrency. Each request's listener sees only its own event sequence, so stale listeners and interleaved requests are not captured.
- When no reply ever arrives, the request waits forever. This is a liveness matter. Over a finite event sequence the model returns "no response" (`None`).
- Failures of backend calls (fetch, create, delete) become unhandled rejections in the source. The model has no such failures. In particular, a channel that vanished before `channel.delete()` is not a failure: `Server.DeleteChannel` on an absent identifier changes nothing.
- Text.ToLowerAscii: lower-cases ASCII letters only, where JavaScript's `toLowerCase` applies full Unicode case mapping. Under that mapping one non-ASCII character, U+212A KELVIN SIGN, lower-cases into the pattern (it becomes `k`); identifiers containing it are accepted by the source but refused by the model.
- A missing `conversationID` query parameter (not the empty string) makes `.toLowerCase()` throw after the readiness check and before the presence check (index.mjs:105, 156). So does a repeated parameter that arrives as an array. The model's inputs are strings, so the "Please provide…" branch is reached by the empty string.
- Console logging and environment-variable reads are not modelled. `SERVER_ID` names the single modelled `Server`. `CLYDE_USER_ID` is the `responder` parameter, whose default is `Correlation.DefaultResponderId`.
