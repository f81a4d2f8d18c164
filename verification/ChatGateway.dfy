/** The gateway's handlers as written, each run without interference: the steps of module Chat. */
module ChatGateway {
  import opened Base
  import opened ChatHistory
  import opened Chat

  datatype SendError = NotInRoom | SaveFailed(message: string)

  /** What a member's send amounts to, its three steps uninterrupted. */
  lemma SendSteps(h: Hub, room: string, client: Client, senderId: string, content: string, id: nat, createdAt: int)
    requires (client, room) in h.members && h.sends == map[] && forall m :: m in h.table ==> m.id != id
    ensures var m := Message(id, room, senderId, content, createdAt);
            Next(Next(Next(h, CheckMember(0, client, room, senderId, content)), Insert(0, id, createdAt)), Broadcast(0))
              == DeliverAll(h.(table := h.table + [m]), m)
  {
    hide IsNewest, DeliverAll;
    var m := Message(id, room, senderId, content, createdAt);
    var checked := Next(h, CheckMember(0, client, room, senderId, content));
    assert checked == h.(sends := map[0 := Checked(client, room, senderId, content)]);
    assert Next(checked, Insert(0, id, createdAt)) == h.(table := h.table + [m], sends := map[0 := Saved(m)]);
    assert map[0 := Saved(m)] - {0} == map[];
  }

  class ChatGateway {
    var table: seq<Message>
    var members: set<(Client, string)>
    var inbox: map<Client, seq<Item>>
    var nextId: nat

    /** Message ids are unique; no handler is under way. */
    ghost predicate Valid()
      reads this
    {
      forall m :: m in table ==> m.id < nextId
    }

    ghost function View(): Hub
      reads this
    {
      Hub(table, members, inbox, map[], map[])
    }

    constructor ()
      ensures Valid() && View() == Hub([], {}, map[], map[], map[])
    {
      table, members, inbox, nextId := [], {}, map[], 0;
    }

    /** Join first, then query: the history is sent oldest first. A query that throws leaves the
        client joined without a history. */
    method HandleJoinRoom(room: string, client: Client, queryOk: bool) returns (ok: bool)
      requires Valid()
      modifies this
      ensures Valid() && ok == queryOk
      ensures !ok ==> View() == Next(Next(old(View()), JoinRoom(0, client, room)), JoinFails(0))
      ensures ok ==>
        var answer := RoomHistory(old(table), room, HISTORY_LIMIT);
        View() == Next(Next(Next(old(View()), JoinRoom(0, client, room)), Query(0, answer)), SendHistory(0))
      ensures members == old(members) + {(client, room)} && table == old(table)
      ensures forall c: Client ::
        var news := if ok && c == client then [History(room, Reversed(RoomHistory(old(table), room, 50)))] else [];
        InboxOf(View(), c) == InboxOf(old(View()), c) + news
    {
      hide IsNewest;
      members := members + {(client, room)};
      if !queryOk {
        return false;
      }
      var history := RoomHistory(table, room, 50);
      HistoryIsNewest(table, room, 50);
      inbox := inbox[client := (if client in inbox then inbox[client] else []) + [History(room, Reversed(history))]];
      return true;
    }

    method HandleLeaveRoom(room: string, client: Client)
      requires Valid()
      modifies this
      ensures Valid() && View() == Next(old(View()), LeaveRoom(client, room))
      ensures members == old(members) - {(client, room)} && table == old(table) && inbox == old(inbox)
    {
      members := members - {(client, room)};
    }

    /** Membership check, save, broadcast. `createdAt` is the database's timestamp. */
    method HandleSendMessage(room: string, client: Client, senderId: string, content: string,
                             saveFault: Option<string>, createdAt: int) returns (r: Result<nat, SendError>)
      requires Valid()
      modifies this
      ensures Valid()
      ensures r == Err(NotInRoom) <==> (client, room) !in old(members)
      ensures r.Err? ==> View() == old(View())
      ensures (client, room) in old(members) ==> (r.Ok? <==> saveFault.None?)
      ensures r.Ok? ==>
        View() == Next(Next(Next(old(View()), CheckMember(0, client, room, senderId, content)),
                            Insert(0, r.value, createdAt)), Broadcast(0))
      ensures members == old(members)
      ensures r.Ok? ==>
        var message := Message(r.value, room, senderId, content, createdAt);
        && table == old(table) + [message] && (forall m :: m in old(table) ==> m.id != message.id)
        && forall c: Client ::
             var news := if (c, room) in old(members) then [Live(message)] else [];
             InboxOf(View(), c) == InboxOf(old(View()), c) + news
    {
      if (client, room) !in members {
        return Err(NotInRoom);
      }
      if saveFault.Some? {
        return Err(SaveFailed(saveFault.value));
      }
      hide DeliverAll, Next;
      SendSteps(View(), room, client, senderId, content, nextId, createdAt);
      var message := Message(nextId, room, senderId, content, createdAt);
      table := table + [message];
      nextId := nextId + 1;
      Emit(message);
      return Ok(message.id);
    }

    /** `server.to(room).emit(...)` */
    method Emit(message: Message)
      modifies this`inbox
      ensures View() == DeliverAll(old(View()), message)
      ensures forall c: Client ::
        var news := if (c, message.room) in members then [Live(message)] else [];
        InboxOf(View(), c) == InboxOf(old(View()), c) + news
    {
      var receivers := set p | p in members && p.1 == message.room :: p.0;
      assert forall c: Client :: c in receivers <==> (c, message.room) in members;
      inbox := map c | c in inbox.Keys + receivers ::
        if c in receivers then (if c in inbox then inbox[c] else []) + [Live(message)]
        else if c in inbox then inbox[c] else [];
    }
  }
}
