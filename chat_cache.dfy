/** The in-memory list of chats that receive notifications (internal/managers/chat.go). */
module ChatCache {
  import opened Common

  /** A `models.Chat` row. */
  datatype Chat = Chat(chatId: string, send: bool)

  /** The rows the query `send = true` selects, in table order. */
  function Active(table: seq<Chat>): seq<Chat>
  {
    if table == [] then []
    else Active(table[..|table| - 1]) + (if table[|table| - 1].send then [table[|table| - 1]] else [])
  }

  /** The chat ids of `chats`, in order. */
  function ChatIds(chats: seq<Chat>): (ids: seq<string>)
    ensures |ids| == |chats|
    ensures forall k :: 0 <= k < |chats| ==> ids[k] == chats[k].chatId
  {
    seq(|chats|, k requires 0 <= k < |chats| => chats[k].chatId)
  }

  /** The active chats are a subsequence of the table: exactly the rows with `send`,
      each kept in place relative to the others. */
  lemma {:induction false} ActiveRows(table: seq<Chat>)
    ensures |Active(table)| <= |table|
    ensures forall c :: c in Active(table) <==> c in table && c.send
  {
    if table != [] {
      var init := table[..|table| - 1];
      ActiveRows(init);
      assert table == init + [table[|table| - 1]];
    }
  }

  /** Selecting from two tables one after the other selects from their concatenation. */
  lemma {:induction false} ActiveAppend(a: seq<Chat>, b: seq<Chat>)
    ensures Active(a + b) == Active(a) + Active(b)
  {
    if b == [] {
      assert a + b == a;
    } else {
      var init, last := b[..|b| - 1], b[|b| - 1];
      var kept := if last.send then [last] else [];
      assert (a + b)[..|a + b| - 1] == a + init && (a + b)[|a + b| - 1] == last;
      calc {
        Active(a + b);
        Active(a + init) + kept;
        { ActiveAppend(a, init); }
        (Active(a) + Active(init)) + kept;
        { ChatsAssoc(Active(a), Active(init), kept); }
        Active(a) + (Active(init) + kept);
        Active(a) + Active(b);
      }
    }
  }

  lemma ChatsAssoc(x: seq<Chat>, y: seq<Chat>, z: seq<Chat>)
    ensures (x + y) + z == x + (y + z)
  {
  }

  class ChatManager {
    /** `chatIDs`: the ids of the active chats. */
    var chatIds: seq<string>

    /** `Chats` as declared: no chat ids. */
    constructor()
      ensures chatIds == []
    {
      chatIds := [];
    }

    /** `Reload`: on a query error nothing changes and the error is returned;
        otherwise the ids of the active chats, in order, replace the list. */
    method Reload(table: Result<seq<Chat>>) returns (err: Option<Error>)
      modifies this
      ensures table.Failure? ==> err == Some(table.error) && chatIds == old(chatIds)
      ensures table.Success? ==> err == None && chatIds == ChatIds(Active(table.value))
    {
      if table.Failure? {
        return Some(table.error);
      }
      var chats := Active(table.value);
      var ids: seq<string> := [];
      for i := 0 to |chats|
        invariant ids == ChatIds(chats[..i])
      {
        ids := ids + [chats[i].chatId];
      }
      assert chats[..|chats|] == chats;
      chatIds := ids;
      return None;
    }

    /** `All`: the cached ids.  The result is a value, so changing it cannot change the cache. */
    function All(): seq<string>
      reads this
    {
      chatIds
    }
  }

  /** An id is among the ids of `chats` iff some chat carries it. */
  lemma ChatIdsMembers(chats: seq<Chat>)
    ensures forall id :: id in ChatIds(chats) <==> exists c :: c in chats && c.chatId == id
  {
    var ids := ChatIds(chats);
    forall id | exists c :: c in chats && c.chatId == id
      ensures id in ids
    {
      var c :| c in chats && c.chatId == id;
      var j :| 0 <= j < |chats| && chats[j] == c;
      assert ids[j] == id;
    }
  }

  /** After reloading `table`, an id is listed iff some row with `send` set carries it,
      and there is none when no chat is active. */
  lemma AllAfterReload(m: ChatManager, table: seq<Chat>)
    requires m.chatIds == ChatIds(Active(table))
    ensures forall id :: id in m.All() <==> exists c :: c in table && c.send && c.chatId == id
    ensures (forall c :: c in table ==> !c.send) ==> m.All() == []
  {
    var active := Active(table);
    ActiveRows(table);
    ChatIdsMembers(active);
    if active != [] {
      assert active[0] in active;
    }
  }
}
