/** backend/app/core/conversation_manager.py: conversations persisted one record
    per id. The directory of JSON files is a map from id to record; `uuid4().hex` and
    `datetime.now()` are parameters (a hex string and a clock tick). ISO timestamps
    of one clock compare as their ticks do. */
module Conversations {
  import opened Wrappers
  import opened Strings
  import Schemas

  datatype Message = Message(id: string, role: string, content: string, timestamp: nat, sources: seq<Schemas.Source>)

  /** A stored record; `messageCount` is `metadata.message_count`. */
  datatype Conversation = Conversation(id: string, createdAt: nat, updatedAt: nat, messages: seq<Message>, messageCount: int)

  /** What `list_conversations` reports about one record. */
  datatype Summary = Summary(id: string, createdAt: nat, updatedAt: nat, messageCount: int, preview: string)

  const IdPrefix: string := "conv_"

  /** The `TypeError` of subscripting the None that a failed reload returns. */
  const NoneSubscript: string := "'NoneType' object is not subscriptable"

  /** A record as this manager writes it: the count matches the messages, and the
      message times lie between creation and the last update. */
  predicate WellFormed(c: Conversation) {
    && c.messageCount == |c.messages|
    && c.createdAt <= c.updatedAt
    && forall i :: 0 <= i < |c.messages| ==> c.createdAt <= c.messages[i].timestamp <= c.updatedAt
  }

  /** `f"conv_{uuid.uuid4().hex[:12]}"`. */
  function ConversationId(hex: string): (id: string)
    ensures StartsWith(id, IdPrefix) && |id| == |IdPrefix| + Min(|hex|, 12)
  {
    IdPrefix + Take(hex, 12)
  }

  /** `f"msg_{uuid.uuid4().hex[:8]}"`. */
  function MessageId(hex: string): (id: string)
    ensures StartsWith(id, "msg_") && |id| == 4 + Min(|hex|, 8)
  {
    "msg_" + Take(hex, 8)
  }

  /** The record `create_conversation` saves: no messages, a count of 0. */
  function NewConversation(id: string, now: nat): (c: Conversation)
    ensures c.id == id && c.messages == [] && c.messageCount == 0
    ensures WellFormed(c)
  {
    Conversation(id, now, now, [], 0)
  }

  /** The message `add_message` builds; `sources or []`. */
  function NewMessage(hex: string, role: string, content: string, now: nat, sources: Option<seq<Schemas.Source>>): Message {
    Message(MessageId(hex), role, content, now, sources.GetOr([]))
  }

  /** The record after appending `m`: the message goes last, `updated_at` becomes its
      time and the count is recomputed. */
  function AppendMessage(c: Conversation, m: Message): Conversation {
    Conversation(c.id, c.createdAt, m.timestamp, c.messages + [m], |c.messages| + 1)
  }

  /** Appending keeps the earlier messages, puts the new one last, and keeps a record
      well formed when the clock has not run backwards. */
  lemma AppendKeepsWellFormed(c: Conversation, m: Message)
    requires WellFormed(c) && c.updatedAt <= m.timestamp
    ensures var c2 := AppendMessage(c, m);
      WellFormed(c2) && c2.id == c.id && c2.messages[..|c.messages|] == c.messages &&
      c2.messages[|c.messages|] == m && c2.messageCount == c.messageCount + 1
  {
    var c2 := AppendMessage(c, m);
    assert forall i :: 0 <= i < |c.messages| ==> c2.messages[i] == c.messages[i];
  }

  /** A record whose count was off is repaired by the next append, since the count is
      recomputed from the messages rather than incremented. */
  lemma AppendRecountsMessages(c: Conversation, m: Message)
    ensures AppendMessage(c, m).messageCount == |AppendMessage(c, m).messages|
  {
  }

  /** `content[:50] + "..."` of the first message, or "" without messages. */
  function Preview(c: Conversation): (p: string)
    ensures c.messages == [] <==> p == []
    ensures c.messages != [] ==>
      |p| == Min(|c.messages[0].content|, 50) + 3 &&
      p == c.messages[0].content[..|p| - 3] + "..."
  {
    if c.messages == [] then "" else Take(c.messages[0].content, 50) + "..."
  }

  function SummaryOf(c: Conversation): Summary {
    Summary(c.id, c.createdAt, c.updatedAt, c.messageCount, Preview(c))
  }

  // ---------------------------------------------------------------------------
  // `conversations.sort(key=lambda x: x['updated_at'], reverse=True)`

  predicate Descending(s: seq<Summary>) {
    forall i, j :: 0 <= i < j < |s| ==> s[i].updatedAt >= s[j].updatedAt
  }

  function InsertDescending(x: Summary, s: seq<Summary>): (r: seq<Summary>)
    requires Descending(s)
    ensures |r| == |s| + 1
    ensures multiset(r) == multiset(s) + multiset{x}
    ensures Descending(r)
  {
    if s == [] then [x]
    else if x.updatedAt >= s[0].updatedAt then
      ConsDescending(x, s);
      [x] + s
    else
      DescendingTail(s);
      var rest := InsertDescending(x, s[1..]);
      assert s == [s[0]] + s[1..];
      assert multiset(s) == multiset{s[0]} + multiset(s[1..]);
      assert rest[0] == x || rest[0] == s[1];
      ConsDescending(s[0], rest);
      [s[0]] + rest
  }

  lemma DescendingTail(s: seq<Summary>)
    requires s != [] && Descending(s)
    ensures Descending(s[1..])
  {
    assert forall i :: 0 <= i < |s| - 1 ==> s[1..][i] == s[i + 1];
  }

  lemma ConsDescending(y: Summary, rest: seq<Summary>)
    requires Descending(rest) && (rest != [] ==> rest[0].updatedAt <= y.updatedAt)
    ensures Descending([y] + rest)
  {
    var r := [y] + rest;
    assert forall j :: 0 < j < |r| ==> r[j] == rest[j - 1];
  }

  /** A permutation of `s` in descending order of `updated_at`. */
  function SortDescending(s: seq<Summary>): (r: seq<Summary>)
    ensures multiset(r) == multiset(s)
    ensures Descending(r)
  {
    if s == [] then []
    else
      assert s == [s[0]] + s[1..];
      InsertDescending(s[0], SortDescending(s[1..]))
  }

  predicate Distinct<T(==)>(s: seq<T>) {
    forall i, j :: 0 <= i < j < |s| ==> s[i] != s[j]
  }

  // ---------------------------------------------------------------------------
  // The manager

  class ConversationManager {
    /** The files `data/conversations/<id>.json`, by id. */
    var store: map<string, Conversation>

    /** The manager over whatever records the directory already holds. */
    constructor (existing: map<string, Conversation>)
      ensures store == existing
    {
      store := existing;
    }

    /** Every record is filed under its own id and is well formed. */
    predicate Valid()
      reads this
    {
      forall id :: id in store ==> store[id].id == id && WellFormed(store[id])
    }

    /** No record was updated after `now`. */
    predicate UpdatedBy(now: nat)
      reads this
    {
      forall id :: id in store ==> store[id].updatedAt <= now
    }

    /** The ids the file pattern `conv_*.json` matches. */
    function ListedIds(): (ids: set<string>)
      reads this
      ensures forall id :: id in ids <==> id in store && StartsWith(id, IdPrefix)
    {
      set id | id in store && StartsWith(id, IdPrefix)
    }

    /** `load_conversation`: the record, or None when no file has that id. */
    function Load(convId: string): (r: Option<Conversation>)
      reads this
      ensures r.None? <==> convId !in store
      ensures r.Some? ==> r.value == store[convId]
    {
      if convId in store then Some(store[convId]) else None
    }

    /** `_save_conversation`: the file for `convId` is overwritten, no other. */
    method Save(convId: string, data: Conversation)
      modifies this
      ensures store == old(store)[convId := data]
    {
      store := store[convId := data];
    }

    /** `create_conversation`. */
    method CreateConversation(hex: string, now: nat) returns (convId: string)
      modifies this
      ensures convId == ConversationId(hex)
      ensures store == old(store)[convId := NewConversation(convId, now)]
      ensures old(Valid()) ==> Valid()
      ensures old(UpdatedBy(now)) ==> UpdatedBy(now)
    {
      convId := ConversationId(hex);
      var conversation := NewConversation(convId, now);
      Save(convId, conversation);
    }

    /** `add_message`. For a stored id one message is appended to that record alone.
        For a missing id a conversation is created under a fresh id, the reload of
        `convId` still finds nothing, and subscripting None raises; only when the fresh
        id happens to be `convId` does the append go through. */
    method AddMessage(convId: string, role: string, content: string, sources: Option<seq<Schemas.Source>>,
                      freshHex: string, msgHex: string, now: nat)
      returns (outcome: Outcome<string>)
      modifies this
      ensures var m := NewMessage(msgHex, role, content, now, sources);
        if convId in old(store) then
          outcome == Pass && store == old(store)[convId := AppendMessage(old(store)[convId], m)]
        else if ConversationId(freshHex) == convId then
          outcome == Pass && store == old(store)[convId := AppendMessage(NewConversation(convId, now), m)]
        else
          outcome == Fail(NoneSubscript) &&
          store == old(store)[ConversationId(freshHex) := NewConversation(ConversationId(freshHex), now)]
      ensures old(Valid()) && old(UpdatedBy(now)) ==> Valid() && UpdatedBy(now)
    {
      var conversation := Load(convId);
      if conversation.None? {
        var _ := CreateConversation(freshHex, now);
        conversation := Load(convId);
      }
      var message := NewMessage(msgHex, role, content, now, sources);
      if conversation.None? {
        return Fail(NoneSubscript);
      }
      if old(Valid()) && old(UpdatedBy(now)) {
        AppendKeepsWellFormed(conversation.value, message);
      }
      Save(convId, AppendMessage(conversation.value, message));
      outcome := Pass;
    }

    /** `delete_conversation`: true exactly when the file existed; afterwards no record
        has that id. */
    method DeleteConversation(convId: string) returns (deleted: bool)
      modifies this
      ensures deleted <==> convId in old(store)
      ensures store == old(store) - {convId}
      ensures !deleted ==> store == old(store)
      ensures old(Valid()) ==> Valid()
    {
      if convId in store {
        store := store - {convId};
        return true;
      }
      return false;
    }

    function SummariesOf(ids: seq<string>): (ss: seq<Summary>)
      reads this
      requires forall i :: 0 <= i < |ids| ==> ids[i] in store
      ensures |ss| == |ids| && forall i :: 0 <= i < |ids| ==> ss[i] == SummaryOf(store[ids[i]])
    {
      seq(|ids|, i requires 0 <= i < |ids| && ids[i] in store reads this => SummaryOf(store[ids[i]]))
    }

    /** `list_conversations`: one summary per listed id, in the (unspecified) order the
        directory yields them, then sorted by `updated_at`, most recent first. */
    method ListConversations() returns (summaries: seq<Summary>, ghost listed: seq<string>)
      ensures Distinct(listed) && forall id :: id in listed <==> id in ListedIds()
      ensures multiset(summaries) == multiset(SummariesOf(listed))
      ensures Descending(summaries)
    {
      var remaining := ListedIds();
      var conversations: seq<Summary> := [];
      listed := [];
      while remaining != {}
        invariant remaining <= ListedIds()
        invariant forall id :: id in ListedIds() ==> id in remaining || id in listed
        invariant forall i :: 0 <= i < |listed| ==> listed[i] in ListedIds() && listed[i] !in remaining
        invariant Distinct(listed)
        invariant |conversations| == |listed|
        invariant forall i :: 0 <= i < |listed| ==> conversations[i] == SummaryOf(store[listed[i]])
        decreases |remaining|
      {
        var id :| id in remaining;
        var data := store[id];
        conversations := conversations + [SummaryOf(data)];
        listed := listed + [id];
        remaining := remaining - {id};
      }
      assert conversations == SummariesOf(listed);
      summaries := SortDescending(conversations);
    }
  }

  /** `create_conversation` followed by `load_conversation` on its id gives an empty
      conversation; the other records are untouched. */
  method CreateThenLoad(m: ConversationManager, hex: string, now: nat) returns (loaded: Option<Conversation>)
    modifies m
    ensures loaded.Some? && loaded.value.messages == [] && loaded.value.messageCount == 0
    ensures StartsWith(loaded.value.id, IdPrefix)
    ensures forall id :: id in old(m.store) && id != loaded.value.id ==> id in m.store && m.store[id] == old(m.store)[id]
  {
    var convId := m.CreateConversation(hex, now);
    loaded := m.Load(convId);
  }

  /** Deleting an id and loading it again gives None. */
  method DeleteThenLoad(m: ConversationManager, convId: string) returns (loaded: Option<Conversation>)
    modifies m
    ensures loaded.None?
  {
    var _ := m.DeleteConversation(convId);
    loaded := m.Load(convId);
  }
}
