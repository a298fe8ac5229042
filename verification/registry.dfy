/**
 * The channel registry: the channels of the parent server as a sequence, in the
 * order the backend lists them, with lookup by name (index.mjs, lines 41-46),
 * resolve-or-create (128-131), delete-by-conversation (172-184) and the
 * pruning sweep (48-71). The backend's fetch, create and delete calls are
 * operations on that sequence.
 */
module Registry {
  import opened Wrappers
  import opened Text

  /** A channel's snowflake identifier; only equality is ever asked of it. */
  type Snowflake = nat

  datatype Channel = Channel(id: Snowflake, name: Str)

  /** The default channel ceiling of `pruneChannels`. */
  const DefaultMaxChannels: nat := 450

  /** No two channels share an identifier (the backend's snowflakes are unique). */
  ghost predicate IdsDistinct(s: seq<Channel>) {
    forall i, j | 0 <= i < j < |s| :: s[i].id != s[j].id
  }

  /** At most one channel carries `name`: the best-effort invariant of one channel per conversation. */
  ghost predicate NameAtMostOnce(s: seq<Channel>, name: Str) {
    forall i, j | 0 <= i < j < |s| && s[i].name == name :: s[j].name != name
  }

  ghost predicate HasName(s: seq<Channel>, name: Str) {
    exists i | 0 <= i < |s| :: s[i].name == name
  }

  /** Position of the first channel called `name`, as `Collection.find` scans in list order. */
  function FindIndex(s: seq<Channel>, name: Str): (r: Option<nat>)
    ensures r.Some? ==> r.value < |s| && s[r.value].name == name
    ensures r.Some? ==> forall j | 0 <= j < r.value :: s[j].name != name
    ensures r.None? ==> forall j | 0 <= j < |s| :: s[j].name != name
  {
    if s == [] then None
    else if s[0].name == name then Some(0)
    else match FindIndex(s[1..], name)
      case None => None
      case Some(i) => Some(i + 1)
  }

  /** `getChannelByName`: the first channel called `name`, or none when no channel has that name. */
  function FindByName(s: seq<Channel>, name: Str): (r: Option<Channel>)
    ensures r.None? <==> !HasName(s, name)
    ensures r.Some? ==> exists i | 0 <= i < |s| ::
              s[i] == r.value && s[i].name == name && forall j | 0 <= j < i :: s[j].name != name
  {
    match FindIndex(s, name)
    case None => None
    case Some(i) => Some(s[i])
  }

  /** The server's channels after the backend deletes the channel with identifier `id`. */
  function RemoveId(s: seq<Channel>, id: Snowflake): (r: seq<Channel>)
    ensures forall c | c in r :: c in s && c.id != id
    ensures forall c | c in s && c.id != id :: c in r
    ensures |r| <= |s|
    ensures |r| == |s| ==> forall i | 0 <= i < |s| :: s[i].id != id
  {
    if s == [] then []
    else if s[0].id == id then RemoveId(s[1..], id)
    else [s[0]] + RemoveId(s[1..], id)
  }

  /** Deleting an identifier no channel has changes nothing. */
  lemma {:induction false} RemoveAbsentId(s: seq<Channel>, id: Snowflake)
    requires forall i | 0 <= i < |s| :: s[i].id != id
    ensures RemoveId(s, id) == s
  {
    if s != [] {
      RemoveAbsentId(s[1..], id);
    }
  }

  /** With unique identifiers, deleting the channel at position `i` removes it and leaves every other channel in place. */
  lemma {:induction false} RemoveIdAt(s: seq<Channel>, i: nat)
    requires IdsDistinct(s) && i < |s|
    ensures RemoveId(s, s[i].id) == s[..i] + s[i + 1..]
  {
    var t := s[1..];
    if i == 0 {
      RemoveAbsentId(t, s[0].id);
    } else {
      assert IdsDistinct(t);
      assert t[i - 1] == s[i];
      assert s[0].id != s[i].id;
      RemoveIdAt(t, i - 1);
      assert RemoveId(s, s[i].id) == [s[0]] + (t[..i - 1] + t[i..]);
      assert t[..i - 1] == s[1..i] && t[i..] == s[i + 1..];
      assert [s[0]] + s[1..i] == s[..i];
    }
  }

  /** Deleting a channel keeps the identifiers unique. */
  lemma {:induction false} RemoveIdKeepsDistinct(s: seq<Channel>, id: Snowflake)
    requires IdsDistinct(s)
    ensures IdsDistinct(RemoveId(s, id))
  {
    if s != [] {
      RemoveIdKeepsDistinct(s[1..], id);
      if s[0].id != id {
        var rest := RemoveId(s[1..], id);
        forall j | 0 <= j < |rest| ensures rest[j].id != s[0].id {
          assert rest[j] in s[1..];
        }
      }
    }
  }

  /** Appending a channel called `name` to a list without one makes it the channel found. */
  lemma FindAfterAppend(s: seq<Channel>, c: Channel)
    requires !HasName(s, c.name)
    ensures FindIndex(s + [c], c.name) == Some(|s|)
  {
    var r := FindIndex(s + [c], c.name);
    assert (s + [c])[|s|].name == c.name;
  }

  /**
   * Resolve-or-create (index.mjs, lines 128-131): the channel the request uses and
   * the server's channels afterwards. `freshId` is the identifier the backend
   * gives a channel it creates.
   */
  function Resolved(s: seq<Channel>, name: Str, freshId: Snowflake): (r: (Channel, seq<Channel>))
    ensures r.0.name == name
    ensures FindByName(r.1, name) == Some(r.0)
    ensures HasName(s, name) ==> r.1 == s && r.0 in s
    ensures !HasName(s, name) ==> r.1 == s + [r.0] && r.0.id == freshId
  {
    match FindByName(s, name)
    case Some(c) => (c, s)
    case None =>
      var c := Channel(freshId, name);
      FindAfterAppend(s, c);
      (c, s + [c])
  }

  /** A second resolve of the same name is a no-op that returns the same channel. */
  lemma ResolveIdempotent(s: seq<Channel>, name: Str, freshId: Snowflake, laterId: Snowflake)
    ensures Resolved(Resolved(s, name, freshId).1, name, laterId) == Resolved(s, name, freshId)
  {
  }

  /** Resolving with an identifier no channel has keeps identifiers unique and adds at most one channel. */
  lemma ResolvedKeepsDistinct(s: seq<Channel>, name: Str, freshId: Snowflake)
    requires IdsDistinct(s)
    requires forall i | 0 <= i < |s| :: s[i].id != freshId
    ensures IdsDistinct(Resolved(s, name, freshId).1)
    ensures |s| <= |Resolved(s, name, freshId).1| <= |s| + 1
  {
  }

  /** What the delete route reports once the identifier has passed validation. */
  datatype DeleteReply = NoSuchConversation | ConversationDeleted

  /** Delete-by-conversation (index.mjs, lines 172-184): the reply and the server's channels afterwards. */
  function DeletedConversation(s: seq<Channel>, name: Str): (r: (DeleteReply, seq<Channel>))
    ensures r.0 == NoSuchConversation <==> !HasName(s, name)
    ensures r.0 == NoSuchConversation ==> r.1 == s
    ensures r.0 == ConversationDeleted ==> |r.1| < |s|
  {
    match FindByName(s, name)
    case None => (NoSuchConversation, s)
    case Some(c) =>
      assert c in s;
      assert c !in RemoveId(s, c.id);
      (ConversationDeleted, RemoveId(s, c.id))
  }

  /**
   * With unique identifiers, deleting a conversation removes exactly the first
   * channel of that name and leaves every other channel, in order.
   */
  lemma DeleteRemovesFound(s: seq<Channel>, name: Str, i: nat)
    requires IdsDistinct(s)
    requires FindIndex(s, name) == Some(i)
    ensures DeletedConversation(s, name) == (ConversationDeleted, s[..i] + s[i + 1..])
  {
    RemoveIdAt(s, i);
  }

  /**
   * When at most one channel carries the name, a delete removes the conversation
   * entirely, so a second delete reports that it does not exist.
   */
  lemma DeleteTwice(s: seq<Channel>, name: Str)
    requires IdsDistinct(s) && NameAtMostOnce(s, name)
    ensures !HasName(DeletedConversation(s, name).1, name)
    ensures DeletedConversation(DeletedConversation(s, name).1, name).0 == NoSuchConversation
  {
    match FindIndex(s, name)
    case None =>
    case Some(i) =>
      DeleteRemovesFound(s, name, i);
      var t := s[..i] + s[i + 1..];
      forall k | 0 <= k < |t| ensures t[k].name != name {
        if k >= i {
          assert t[k] == s[k + 1];
        }
      }
  }

  /** The pruning rule: over `max` channels, all are deleted; otherwise none is. */
  function Pruned(s: seq<Channel>, max: nat): (r: seq<Channel>)
    ensures |r| <= max
    ensures r == s || r == []
    ensures |s| <= max ==> r == s
  {
    if |s| > max then [] else s
  }

  /** A fresh identifier: one greater than every identifier in `s`. */
  function NextFreeId(s: seq<Channel>): (r: Snowflake)
    ensures forall i | 0 <= i < |s| :: s[i].id < r
  {
    if s == [] then 0
    else
      var rest := NextFreeId(s[1..]);
      if s[0].id < rest then rest else s[0].id + 1
  }

  /**
   * The parent server (the guild), whose channel list the backend calls change
   * in place. `nextId` stands for the backend's supply of fresh snowflakes.
   */
  class Server {
    var channels: seq<Channel>
    var nextId: Snowflake

    ghost predicate Valid()
      reads this
    {
      IdsDistinct(channels) && forall i | 0 <= i < |channels| :: channels[i].id < nextId
    }

    constructor (initial: seq<Channel>)
      requires IdsDistinct(initial)
      ensures Valid() && channels == initial
    {
      channels := initial;
      nextId := NextFreeId(initial);
    }

    /** `getChannelByName` (index.mjs, lines 41-46): fetch the channel list, take the first of that name. */
    method GetChannelByName(name: Str) returns (c: Option<Channel>)
      ensures c == FindByName(channels, name)
    {
      var fetched := channels;
      c := FindByName(fetched, name);
    }

    /** `getChannelCount` (index.mjs, lines 57-61). */
    method GetChannelCount() returns (n: nat)
      ensures n == |channels|
    {
      var fetched := channels;
      n := |fetched|;
    }

    /** `createChannelinServer` (index.mjs, lines 27-39): append a channel with a fresh identifier. */
    method CreateChannel(name: Str) returns (c: Channel)
      requires Valid()
      modifies this
      ensures Valid()
      ensures c == Channel(old(nextId), name)
      ensures channels == old(channels) + [c]
      ensures forall i | 0 <= i < |old(channels)| :: old(channels)[i].id != c.id
    {
      c := Channel(nextId, name);
      channels := channels + [c];
      nextId := nextId + 1;
    }

    /** `channel.delete()` (index.mjs, lines 53 and 179): the backend drops the channel with that identifier. */
    method DeleteChannel(id: Snowflake)
      requires Valid()
      modifies this
      ensures Valid()
      ensures channels == RemoveId(old(channels), id) && nextId == old(nextId)
    {
      RemoveIdKeepsDistinct(channels, id);
      channels := RemoveId(channels, id);
    }

    /** Resolve-or-create (index.mjs, lines 128-131): reuse the first channel of that name, or create one. */
    method ResolveOrCreate(name: Str) returns (c: Channel)
      requires Valid()
      modifies this
      ensures Valid()
      ensures (c, channels) == Resolved(old(channels), name, old(nextId))
    {
      var found := GetChannelByName(name);
      if found.Some? {
        c := found.value;
      } else {
        c := CreateChannel(name);
      }
    }

    /** The delete path (index.mjs, lines 172-184): delete the first channel of that name, if there is one. */
    method DeleteConversation(name: Str) returns (reply: DeleteReply)
      requires Valid()
      modifies this
      ensures Valid()
      ensures (reply, channels) == DeletedConversation(old(channels), name)
    {
      var found := GetChannelByName(name);
      if found.None? {
        return NoSuchConversation;
      }
      DeleteChannel(found.value.id);
      reply := ConversationDeleted;
    }

    /** `deleteAllChannels` (index.mjs, lines 48-55): fetch the list, then delete its channels one by one. */
    method DeleteAllChannels()
      requires Valid()
      modifies this
      ensures Valid()
      ensures channels == [] && nextId == old(nextId)
    {
      var fetched := channels;
      var i := 0;
      while i < |fetched|
        invariant 0 <= i <= |fetched|
        invariant Valid() && nextId == old(nextId)
        invariant channels == fetched[i..]
      {
        RemoveIdAt(fetched[i..], 0);
        assert fetched[i..][1..] == fetched[i + 1..];
        DeleteChannel(fetched[i].id);
        i := i + 1;
      }
    }

    /** `pruneChannels` (index.mjs, lines 63-71): delete every channel when there are more than `max`. */
    method PruneChannels(max: nat := DefaultMaxChannels)
      requires Valid()
      modifies this
      ensures Valid()
      ensures channels == Pruned(old(channels), max) && nextId == old(nextId)
    {
      var count := GetChannelCount();
      if count > max {
        DeleteAllChannels();
      }
    }
  }
}
