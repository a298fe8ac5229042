/**
 * Reply correlation (index.mjs, lines 135-141): after the prompt is sent, the
 * route waits on the inbound message stream for the first message posted in the
 * conversation's channel by the responder, and answers with its content. The
 * promise settles once, so later matches change nothing. The stream is the
 * finite sequence of events that arrive after the send.
 */
module Correlation {
  import opened Wrappers
  import opened Text
  import opened Registry

  /** The responder's user identifier when none is configured (index.mjs, line 13). */
  const DefaultResponderId: Snowflake := 1081004946872352958

  /** A `messageCreate` event: the channel it was posted in, its author, its text. */
  datatype Event = Event(channelId: Snowflake, authorId: Snowflake, content: Str)

  /** The listener's test (index.mjs, line 137): same channel and written by the responder. */
  predicate IsReply(e: Event, channelId: Snowflake, responder: Snowflake) {
    e.channelId == channelId && e.authorId == responder
  }

  /** Position of the first reply in the stream, if any. */
  function FirstReplyIndex(events: seq<Event>, channelId: Snowflake, responder: Snowflake): (r: Option<nat>)
    ensures r.Some? ==> r.value < |events| && IsReply(events[r.value], channelId, responder)
    ensures r.Some? ==> forall j | 0 <= j < r.value :: !IsReply(events[j], channelId, responder)
    ensures r.None? ==> forall j | 0 <= j < |events| :: !IsReply(events[j], channelId, responder)
  {
    if events == [] then None
    else if IsReply(events[0], channelId, responder) then Some(0)
    else match FirstReplyIndex(events[1..], channelId, responder)
      case None => None
      case Some(i) => Some(i + 1)
  }

  /** The value the promise settles with: the content of the first reply, or none if no reply arrives. */
  function FirstReply(events: seq<Event>, channelId: Snowflake, responder: Snowflake): (r: Option<Str>)
    ensures r.None? <==> forall j | 0 <= j < |events| :: !IsReply(events[j], channelId, responder)
    ensures r.Some? ==> exists i | 0 <= i < |events| ::
              IsReply(events[i], channelId, responder) && events[i].content == r.value &&
              forall j | 0 <= j < i :: !IsReply(events[j], channelId, responder)
  {
    match FirstReplyIndex(events, channelId, responder)
    case None => None
    case Some(i) => Some(events[i].content)
  }

  /** The first reply is the one at a position with a reply and no reply before it. */
  lemma FirstReplyAt(events: seq<Event>, channelId: Snowflake, responder: Snowflake, i: nat)
    requires i < |events| && IsReply(events[i], channelId, responder)
    requires forall j | 0 <= j < i :: !IsReply(events[j], channelId, responder)
    ensures FirstReply(events, channelId, responder) == Some(events[i].content)
  {
    var k := FirstReplyIndex(events, channelId, responder);
    assert k.Some?;
  }

  /**
   * An event that is not a reply (another channel or another author) never
   * affects the response, wherever it arrives.
   */
  lemma OtherEventIgnored(before: seq<Event>, e: Event, after: seq<Event>, channelId: Snowflake, responder: Snowflake)
    requires !IsReply(e, channelId, responder)
    ensures FirstReply(before + [e] + after, channelId, responder) == FirstReply(before + after, channelId, responder)
  {
    var with := before + [e] + after;
    var without := before + after;
    match FirstReplyIndex(without, channelId, responder)
    case None =>
      forall j | 0 <= j < |with| ensures !IsReply(with[j], channelId, responder) {
        if j < |before| {
          assert with[j] == without[j];
        } else if j > |before| {
          assert with[j] == without[j - 1];
        }
      }
    case Some(i) =>
      var k := if i < |before| then i else i + 1;
      assert with[k] == without[i];
      forall j | 0 <= j < k ensures !IsReply(with[j], channelId, responder) {
        if j < |before| {
          assert with[j] == without[j];
        } else if j > |before| {
          assert with[j] == without[j - 1];
        }
      }
      FirstReplyAt(with, channelId, responder, k);
  }

  /** The promise resolves once: events after the first reply do not change the response. */
  lemma ResolvesOnce(first: seq<Event>, later: seq<Event>, channelId: Snowflake, responder: Snowflake)
    requires FirstReply(first, channelId, responder).Some?
    ensures FirstReply(first + later, channelId, responder) == FirstReply(first, channelId, responder)
  {
    var i := FirstReplyIndex(first, channelId, responder).value;
    assert (first + later)[i] == first[i];
    forall j | 0 <= j < i ensures !IsReply((first + later)[j], channelId, responder) {
      assert (first + later)[j] == first[j];
    }
    FirstReplyAt(first + later, channelId, responder, i);
  }

  /**
   * The listener of index.mjs, lines 135-141, run over the events that arrive
   * after the send: it stops at the first reply, whose content settles the promise.
   */
  method AwaitReply(events: seq<Event>, channelId: Snowflake, responder: Snowflake) returns (response: Option<Str>)
    ensures response == FirstReply(events, channelId, responder)
  {
    response := None;
    var k := 0;
    while k < |events| && response.None?
      invariant 0 <= k <= |events|
      invariant forall j | 0 <= j < k && (response.None? || j < k - 1) :: !IsReply(events[j], channelId, responder)
      invariant response.Some? ==> 0 < k && IsReply(events[k - 1], channelId, responder) && response.value == events[k - 1].content
    {
      if IsReply(events[k], channelId, responder) {
        response := Some(events[k].content);
      }
      k := k + 1;
    }
    if response.Some? {
      FirstReplyAt(events, channelId, responder, k - 1);
    }
  }
}
