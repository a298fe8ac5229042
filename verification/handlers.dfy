/**
 * The two conversation routes (index.mjs, lines 96-146 for `GET /` and 148-185
 * for `DELETE /`), composed from the validators, the registry and the reply
 * correlation. Each route has a function that states what it answers and what
 * the server's channel list becomes, and a method that runs it on a `Server`.
 */
module Handlers {
  import opened Wrappers
  import opened Text
  import opened Validation
  import opened Registry
  import opened Correlation

  const StatusOk: nat := 200
  const StatusBadRequest: nat := 400

  const ConversationMissing := "Conversation does not exist"
  const ConversationDeletedText := "Conversation deleted"

  /** The JSON bodies the routes send. */
  datatype Body =
    | ErrorBody(error: string)                      // { error }
    | ReplyBody(response: Str)                      // { response }
    | DeletedBody(acknowledgement: string, success: bool)  // { response, success }

  datatype Response = Response(status: nat, body: Body)

  function BadRequest(error: string): Response {
    Response(StatusBadRequest, ErrorBody(error))
  }

  /**
   * One `GET /` turn on the channel list `s`: the response (none while no reply
   * has arrived among `events`) and the channel list afterwards. `freshId` is
   * the identifier a created channel gets.
   */
  function GetTurn(ready: bool, message: Str, rawId: Str, s: seq<Channel>, freshId: Snowflake,
                   responder: Snowflake, events: seq<Event>): (r: (Option<Response>, seq<Channel>))
    ensures ValidateGet(ready, message, rawId).Reject? <==> r.0.Some? && r.0.value.status == StatusBadRequest
    ensures ValidateGet(ready, message, rawId).Reject? ==> r.1 == s
    ensures ValidateGet(ready, message, rawId).Reject? ==> r.0 == Some(BadRequest(ValidateGet(ready, message, rawId).error))
    ensures ValidateGet(ready, message, rawId).Proceed? ==>
              HasName(r.1, ToLowerAscii(rawId)) &&
              (HasName(s, ToLowerAscii(rawId)) ==> r.1 == s) &&
              (!HasName(s, ToLowerAscii(rawId)) ==> r.1 == s + [Channel(freshId, ToLowerAscii(rawId))])
    ensures ValidateGet(ready, message, rawId).Proceed? ==>
              var channel := FindByName(r.1, ToLowerAscii(rawId)).value;
              var reply := FirstReply(events, channel.id, responder);
              (r.0.None? <==> reply.None?) &&
              (r.0.Some? ==> r.0.value == Response(StatusOk, ReplyBody(reply.value)))
  {
    match ValidateGet(ready, message, rawId)
    case Reject(error) => (Some(BadRequest(error)), s)
    case Proceed(id) =>
      var (channel, s') := Resolved(s, id, freshId);
      assert FindByName(s', id).Some?;
      var answer := match FirstReply(events, channel.id, responder)
        case None => None
        case Some(text) => Some(Response(StatusOk, ReplyBody(text)));
      (answer, s')
  }

  /** One `DELETE /` turn on the channel list `s`: the response and the channel list afterwards. */
  function DeleteTurn(ready: bool, rawId: Str, s: seq<Channel>): (r: (Response, seq<Channel>))
    ensures ValidateDelete(ready, rawId).Reject? <==> r.0.status == StatusBadRequest
    ensures ValidateDelete(ready, rawId).Reject? ==> r == (BadRequest(ValidateDelete(ready, rawId).error), s)
    ensures ValidateDelete(ready, rawId).Proceed? && !HasName(s, ToLowerAscii(rawId)) ==>
              r == (Response(StatusOk, ErrorBody(ConversationMissing)), s)
    ensures ValidateDelete(ready, rawId).Proceed? && HasName(s, ToLowerAscii(rawId)) ==>
              r.0 == Response(StatusOk, DeletedBody(ConversationDeletedText, true)) && |r.1| < |s|
  {
    match ValidateDelete(ready, rawId)
    case Reject(error) => (BadRequest(error), s)
    case Proceed(id) =>
      match DeletedConversation(s, id)
      case (NoSuchConversation, s') => (Response(StatusOk, ErrorBody(ConversationMissing)), s')
      case (ConversationDeleted, s') => (Response(StatusOk, DeletedBody(ConversationDeletedText, true)), s')
  }

  /**
   * With unique channel identifiers, an accepted `DELETE /` for a conversation
   * whose first channel sits at position `i` removes exactly that channel and
   * keeps every other channel, in order.
   */
  lemma DeleteTurnRemovesFound(ready: bool, rawId: Str, s: seq<Channel>, i: nat)
    requires IdsDistinct(s)
    requires ValidateDelete(ready, rawId).Proceed?
    requires FindIndex(s, ToLowerAscii(rawId)) == Some(i)
    ensures DeleteTurn(ready, rawId, s) == (Response(StatusOk, DeletedBody(ConversationDeletedText, true)), s[..i] + s[i + 1..])
  {
    DeleteRemovesFound(s, ToLowerAscii(rawId), i);
  }

  /** Before the client is ready, `GET /` answers 400 "not ready" and touches no channel. */
  lemma GetNotReady(message: Str, rawId: Str, s: seq<Channel>, freshId: Snowflake, responder: Snowflake, events: seq<Event>)
    ensures GetTurn(false, message, rawId, s, freshId, responder, events) == (Some(BadRequest(NotReady)), s)
  {
  }

  /** Before the client is ready, `DELETE /` answers 400 "not ready" and touches no channel. */
  lemma DeleteNotReady(rawId: Str, s: seq<Channel>)
    ensures DeleteTurn(false, rawId, s) == (BadRequest(NotReady), s)
  {
  }

  /** Identifiers that differ only in ASCII case are the same conversation on both routes. */
  lemma {:induction false} TurnsIgnoreCase(ready: bool, message: Str, a: Str, b: Str, s: seq<Channel>,
                                           freshId: Snowflake, responder: Snowflake, events: seq<Event>)
    requires SameIgnoringAsciiCase(a, b)
    ensures GetTurn(ready, message, a, s, freshId, responder, events) == GetTurn(ready, message, b, s, freshId, responder, events)
    ensures DeleteTurn(ready, a, s) == DeleteTurn(ready, b, s)
  {
    CaseInsensitive(ready, message, a, b);
  }

  /**
   * After an accepted `GET /`, a second one for the same conversation, in any
   * letter case, leaves the channel list as it is: an accepted one reuses the
   * channel, and a rejected one touches no channel.
   */
  lemma {:induction false} SecondTurnReusesChannel(message: Str, a: Str, message2: Str, b: Str, s: seq<Channel>,
                                                   freshId: Snowflake, laterId: Snowflake, responder: Snowflake,
                                                   events: seq<Event>, events2: seq<Event>)
    requires ValidateGet(true, message, a).Proceed?
    requires SameIgnoringAsciiCase(a, b)
    ensures var s1 := GetTurn(true, message, a, s, freshId, responder, events).1;
            GetTurn(true, message2, b, s1, laterId, responder, events2).1 == s1
  {
    CaseFold(a, b);
    var id := ToLowerAscii(a);
    ResolveIdempotent(s, id, freshId, laterId);
  }

  /** `GET /` (index.mjs, lines 96-146) on a server; the prompt's delivery to the channel is not modelled. */
  method HandleGet(server: Server, ready: bool, message: Str, rawId: Str, events: seq<Event>,
                   responder: Snowflake := DefaultResponderId)
    returns (response: Option<Response>)
    requires server.Valid()
    modifies server
    ensures server.Valid()
    ensures (response, server.channels) == GetTurn(ready, message, rawId, old(server.channels), old(server.nextId), responder, events)
  {
    var outcome := ValidateGet(ready, message, rawId);
    if outcome.Reject? {
      return Some(BadRequest(outcome.error));
    }
    var channel := server.ResolveOrCreate(outcome.conversationId);
    var reply := AwaitReply(events, channel.id, responder);
    if reply.Some? {
      response := Some(Response(StatusOk, ReplyBody(reply.value)));
    } else {
      response := None;
    }
  }

  /** `DELETE /` (index.mjs, lines 148-185) on a server. */
  method HandleDelete(server: Server, ready: bool, rawId: Str) returns (response: Response)
    requires server.Valid()
    modifies server
    ensures server.Valid()
    ensures (response, server.channels) == DeleteTurn(ready, rawId, old(server.channels))
    ensures ValidateDelete(ready, rawId).Proceed? ==>
              match FindIndex(old(server.channels), ToLowerAscii(rawId))
              case None => server.channels == old(server.channels)
              case Some(i) => server.channels == old(server.channels)[..i] + old(server.channels)[i + 1..]
  {
    var outcome := ValidateDelete(ready, rawId);
    if outcome.Reject? {
      return BadRequest(outcome.error);
    }
    ghost var before := server.channels;
    var reply := server.DeleteConversation(outcome.conversationId);
    if FindIndex(before, outcome.conversationId).Some? {
      DeleteRemovesFound(before, outcome.conversationId, FindIndex(before, outcome.conversationId).value);
    }
    match reply
    case NoSuchConversation =>
      response := Response(StatusOk, ErrorBody(ConversationMissing));
    case ConversationDeleted =>
      response := Response(StatusOk, DeletedBody(ConversationDeletedText, true));
  }
}
