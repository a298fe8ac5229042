/**
 * The request validators of the two conversation routes (index.mjs, lines
 * 96-126 for `GET /` and 148-170 for `DELETE /`). Each is a decision procedure
 * on the readiness flag and the query strings; the order of the checks is
 * observable through which error comes back.
 */
module Validation {
  import opened Text

  /** Either the 400 error the route answers with, or "go on" with the lower-cased identifier. */
  datatype Outcome = Reject(error: string) | Proceed(conversationId: Str)

  const NotReady := "Discord is not ready yet"
  const MissingMessageOrId := "Please provide a message and conversationID"
  const MissingId := "Please provide a conversationID"
  const MessageTooLong := "Message is too long. Must be under 1850 characters"
  const InvalidId := "Invalid conversationID. Must be a string with only letters and numbers, no spaces and no more than 32 characters"

  /** Longest message, in UTF-16 code units, that `GET /` relays. */
  const MaxMessageLength := 1850

  /** The checks of `GET /`: readiness, then presence, then message length, then the pattern. */
  function ValidateGet(ready: bool, message: Str, rawId: Str): (r: Outcome)
    ensures !ready ==> r == Reject(NotReady)
    ensures ready && (message == [] || rawId == []) ==> r == Reject(MissingMessageOrId)
    ensures ready && message != [] && rawId != [] && |message| > MaxMessageLength ==> r == Reject(MessageTooLong)
    ensures ready && message != [] && |message| <= MaxMessageLength && rawId != [] && !MatchesIdPattern(rawId) ==>
              r == Reject(InvalidId)
    ensures r.Proceed? <==> ready && message != [] && |message| <= MaxMessageLength && MatchesIdPattern(rawId)
    ensures r.Proceed? ==> r.conversationId == ToLowerAscii(rawId) && IsConversationId(r.conversationId)
  {
    if !ready then Reject(NotReady)
    else
      var id := ToLowerAscii(rawId);
      LowerPreservesPattern(rawId);
      if message == [] || id == [] then Reject(MissingMessageOrId)
      else if |message| > MaxMessageLength then Reject(MessageTooLong)
      else if !MatchesIdPattern(id) then Reject(InvalidId)
      else Proceed(id)
  }

  /** The checks of `DELETE /`: readiness, then presence, then the pattern; no message. */
  function ValidateDelete(ready: bool, rawId: Str): (r: Outcome)
    ensures !ready ==> r == Reject(NotReady)
    ensures ready && rawId == [] ==> r == Reject(MissingId)
    ensures ready && rawId != [] && !MatchesIdPattern(rawId) ==> r == Reject(InvalidId)
    ensures r.Proceed? <==> ready && MatchesIdPattern(rawId)
    ensures r.Proceed? ==> r.conversationId == ToLowerAscii(rawId) && IsConversationId(r.conversationId)
  {
    if !ready then Reject(NotReady)
    else
      var id := ToLowerAscii(rawId);
      LowerPreservesPattern(rawId);
      if id == [] then Reject(MissingId)
      else if !MatchesIdPattern(id) then Reject(InvalidId)
      else Proceed(id)
  }

  /** A message of exactly 1850 code units passes the length check: only longer ones are refused. */
  lemma LengthBoundary(message: Str, rawId: Str)
    requires |message| == MaxMessageLength
    ensures ValidateGet(true, message, rawId) != Reject(MessageTooLong)
  {
  }

  /**
   * Identifiers that differ only in the case of ASCII letters get the same
   * outcome from both validators, so they name the same channel.
   */
  lemma {:induction false} CaseInsensitive(ready: bool, message: Str, a: Str, b: Str)
    requires SameIgnoringAsciiCase(a, b)
    ensures ValidateGet(ready, message, a) == ValidateGet(ready, message, b)
    ensures ValidateDelete(ready, a) == ValidateDelete(ready, b)
  {
    CaseFold(a, b);
  }
}
