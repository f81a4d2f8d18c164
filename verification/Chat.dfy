/** `ChatGateway`: joins, leaves and sends as interleaved steps, and why no message falls between a
    client's history and its live feed. */
module Chat {
  import opened ChatHistory

  const HISTORY_LIMIT := 50

  type Client = nat

  datatype Item = History(room: string, messages: seq<Message>) | Live(message: Message)

  /** A `join_room` handler that has joined, or that has its query's answer. */
  datatype Join = Joined(client: Client, room: string) | Queried(client: Client, room: string, answer: seq<Message>)

  /** A `send_message` handler past its membership check, or past its insert. */
  datatype Send = Checked(client: Client, room: string, senderId: string, content: string) | Saved(message: Message)

  datatype Hub = Hub(table: seq<Message>, members: set<(Client, string)>, inbox: map<Client, seq<Item>>,
                     joins: map<nat, Join>, sends: map<nat, Send>)

  /** One step of a handler; `t` names the handler's invocation. A query's answer is any that the
      newest-first query may give; ids and timestamps are the database's. */
  datatype Action =
    | JoinRoom(t: nat, client: Client, room: string)
    | Query(t: nat, answer: seq<Message>)
    | SendHistory(t: nat)
    | JoinFails(t: nat)
    | LeaveRoom(client: Client, room: string)
    | CheckMember(t: nat, client: Client, room: string, senderId: string, content: string)
    | Insert(t: nat, id: nat, createdAt: int)
    | InsertFails(t: nat)
    | Broadcast(t: nat)

  function InboxOf(h: Hub, c: Client): seq<Item> {
    if c in h.inbox then h.inbox[c] else []
  }

  function Deliver(h: Hub, c: Client, item: Item): Hub {
    h.(inbox := h.inbox[c := InboxOf(h, c) + [item]])
  }

  /** `server.to(room).emit`: every current member of the room, the sender included. */
  function DeliverAll(h: Hub, m: Message): Hub {
    var receivers := set p | p in h.members && p.1 == m.room :: p.0;
    h.(inbox := map c | c in h.inbox.Keys + receivers ::
         if c in receivers then InboxOf(h, c) + [Live(m)] else InboxOf(h, c))
  }

  /** The next state; a step that is not possible changes nothing. */
  ghost function Next(h: Hub, a: Action): Hub {
    match a
    case JoinRoom(t, c, room) =>
      if t in h.joins then h
      else h.(members := h.members + {(c, room)}, joins := h.joins[t := Joined(c, room)])
    case Query(t, answer) =>
      if t in h.joins && h.joins[t].Joined? && IsNewest(answer, h.table, h.joins[t].room, HISTORY_LIMIT) then
        h.(joins := h.joins[t := Queried(h.joins[t].client, h.joins[t].room, answer)])
      else h
    case SendHistory(t) =>
      if t in h.joins && h.joins[t].Queried? then
        var j := h.joins[t];
        Deliver(h.(joins := h.joins - {t}), j.client, History(j.room, Reversed(j.answer)))
      else h
    case JoinFails(t) => h.(joins := h.joins - {t})
    case LeaveRoom(c, room) => h.(members := h.members - {(c, room)})
    case CheckMember(t, c, room, sender, content) =>
      if t in h.sends || (c, room) !in h.members then h
      else h.(sends := h.sends[t := Checked(c, room, sender, content)])
    case Insert(t, id, at) =>
      if t in h.sends && h.sends[t].Checked? && (forall m :: m in h.table ==> m.id != id) then
        var s := h.sends[t];
        var m := Message(id, s.room, s.senderId, s.content, at);
        h.(table := h.table + [m], sends := h.sends[t := Saved(m)])
      else h
    case InsertFails(t) =>
      if t in h.sends && h.sends[t].Checked? then h.(sends := h.sends - {t}) else h
    case Broadcast(t) =>
      if t in h.sends && h.sends[t].Saved? then
        DeliverAll(h.(sends := h.sends - {t}), h.sends[t].message)
      else h
  }

  ghost predicate IsRun(hs: seq<Hub>, acts: seq<Action>) {
    && |hs| == |acts| + 1
    && hs[0] == Hub([], {}, map[], map[], map[])
    && forall i :: 0 <= i < |acts| ==> hs[i + 1] == Next(hs[i], acts[i])
  }

  // ---- No gap -------------------------------------------------------------------------------

  predicate ReceivedLive(h: Hub, c: Client, m: Message) {
    Live(m) in InboxOf(h, c)
  }

  /** A handler has inserted `m` and has yet to broadcast it. */
  ghost predicate InFlight(h: Hub, m: Message) {
    exists t :: t in h.sends && h.sends[t] == Saved(m)
  }

  lemma InboxGrows(h: Hub, a: Action, c: Client, item: Item)
    requires item in InboxOf(h, c)
    ensures item in InboxOf(Next(h, a), c)
  {
  }

  /** One step while `c` is in the room: what was in the table, in flight or received stays covered. */
  lemma StepCovers(h: Hub, a: Action, c: Client, m: Message)
    requires (c, m.room) in h.members
    requires m in Next(h, a).table
    ensures m in h.table || InFlight(Next(h, a), m)
    ensures InFlight(h, m) ==> InFlight(Next(h, a), m) || ReceivedLive(Next(h, a), c, m)
  {
    var h' := Next(h, a);
    if m !in h.table {
      assert a.Insert? && h'.sends[a.t] == Saved(m);
    }
    if InFlight(h, m) {
      var t :| t in h.sends && h.sends[t] == Saved(m);
      if a.Broadcast? && a.t == t {
        assert (c, m.room) in h.members;
        assert c in (set p | p in h.members && p.1 == m.room :: p.0);
      } else {
        assert t in h'.sends && h'.sends[t] == Saved(m);
      }
    }
  }

  /** From step q on, while `c` stays in the room, every message of the room is one the table already
      held at q, or on its way to the room, or received. */
  lemma {:induction false} CoveredSince(hs: seq<Hub>, acts: seq<Action>, q: nat, e: nat, c: Client, m: Message)
    requires IsRun(hs, acts) && q <= e < |hs|
    requires forall i :: q <= i <= e ==> (c, m.room) in hs[i].members
    requires m in hs[e].table
    ensures m in hs[q].table || InFlight(hs[e], m) || ReceivedLive(hs[e], c, m)
    decreases e - q
  {
    if q < e {
      var h, a := hs[e - 1], acts[e - 1];
      StepCovers(h, a, c, m);
      if m in h.table {
        CoveredSince(hs, acts, q, e - 1, c, m);
        if ReceivedLive(h, c, m) {
          InboxGrows(h, a, c, Live(m));
        }
      }
    }
  }

  /** Handler `t` joined `c` to the room at step a, its query answered `answer` at step q. */
  ghost predicate JoinedAndQueried(hs: seq<Hub>, acts: seq<Action>, t: nat, c: Client, room: string,
                                   a: nat, q: nat, answer: seq<Message>)
    requires |hs| == |acts| + 1
  {
    && a < q < |acts|
    && acts[a] == JoinRoom(t, c, room) && t !in hs[a].joins
    && acts[q] == Query(t, answer)
    && t in hs[q].joins && hs[q].joins[t] == Joined(c, room)
    && hs[q + 1] != hs[q]
  }

  /** When the query ran over `table`, `m` was there and not among the newest: the answer holds fifty other
      rows, none of them older. */
  ghost predicate TooOld(table: seq<Message>, answer: seq<Message>, m: Message) {
    m in table && m !in answer && |answer| == 50 && forall x :: x in answer ==> x.createdAt >= m.createdAt
  }

  /** For every interleaving and every client that stays in the room from its join on: each message
      saved in the room, before or after, is in the client's history, or was received live, or is
      saved and about to be broadcast, or was already there, behind fifty no older ones, when the history
      was taken. */
  lemma NoGap(hs: seq<Hub>, acts: seq<Action>, t: nat, c: Client, room: string,
              a: nat, q: nat, answer: seq<Message>, e: nat, m: Message)
    requires IsRun(hs, acts) && JoinedAndQueried(hs, acts, t, c, room, a, q, answer)
    requires q < e < |hs| && forall i :: a < i <= e ==> (c, room) in hs[i].members
    requires m in hs[e].table && m.room == room
    ensures m in answer || ReceivedLive(hs[e], c, m) || InFlight(hs[e], m) || TooOld(hs[q].table, answer, m)
  {
    CoveredSince(hs, acts, q, e, c, m);
    assert hs[q + 1] == Next(hs[q], acts[q]);
  }

  /** Once nothing of the room is in flight and the history has been sent, the client has everything:
      in its inbox, in chronological order within the history. */
  lemma NothingMissed(hs: seq<Hub>, acts: seq<Action>, t: nat, c: Client, room: string,
                      a: nat, q: nat, answer: seq<Message>, f: nat, e: nat, m: Message)
    requires IsRun(hs, acts) && JoinedAndQueried(hs, acts, t, c, room, a, q, answer)
    requires q < f < e < |hs| && forall i :: a < i <= e ==> (c, room) in hs[i].members
    requires acts[f] == SendHistory(t) && t in hs[f].joins && hs[f].joins[t] == Queried(c, room, answer)
    requires m in hs[e].table && m.room == room && !InFlight(hs[e], m) && !TooOld(hs[q].table, answer, m)
    ensures History(room, Reversed(answer)) in InboxOf(hs[e], c) && Ascending(Reversed(answer))
    ensures m in Reversed(answer) || Live(m) in InboxOf(hs[e], c)
  {
    NoGap(hs, acts, t, c, room, a, q, answer, e, m);
    assert hs[q + 1] == Next(hs[q], acts[q]);
    ReversedIsChronological(answer);
    assert hs[f + 1] == Next(hs[f], acts[f]);
    ItemKept(hs, acts, f + 1, e, c, History(room, Reversed(answer)));
  }

  lemma {:induction false} ItemKept(hs: seq<Hub>, acts: seq<Action>, i: nat, e: nat, c: Client, item: Item)
    requires IsRun(hs, acts) && i <= e < |hs| && item in InboxOf(hs[i], c)
    ensures item in InboxOf(hs[e], c)
    decreases e - i
  {
    if i < e {
      ItemKept(hs, acts, i, e - 1, c, item);
      InboxGrows(hs[e - 1], acts[e - 1], c, item);
    }
  }

  // ---- No more than that ----------------------------------------------------------------------

  /** At step k the saved message `m` is broadcast, and `c` is a member of its room. */
  ghost predicate BroadcastTo(h: Hub, a: Action, c: Client, m: Message) {
    a.Broadcast? && a.t in h.sends && h.sends[a.t] == Saved(m) && (c, m.room) in h.members
  }

  lemma StepReceives(h: Hub, a: Action, c: Client, m: Message)
    ensures ReceivedLive(Next(h, a), c, m) <==> ReceivedLive(h, c, m) || BroadcastTo(h, a, c, m)
  {
    if a.Broadcast? && a.t in h.sends && h.sends[a.t].Saved? {
      var n := h.sends[a.t].message;
      assert c in (set p | p in h.members && p.1 == n.room :: p.0) <==> (c, n.room) in h.members;
    }
  }

  /** A client has received a message live exactly if it was a member of the message's room when the message was
      broadcast. */
  lemma {:induction false} ReceivedExactly(hs: seq<Hub>, acts: seq<Action>, e: nat, c: Client, m: Message)
    requires IsRun(hs, acts) && e < |hs|
    ensures ReceivedLive(hs[e], c, m) <==> exists k :: 0 <= k < e && BroadcastTo(hs[k], acts[k], c, m)
  {
    hide Next, BroadcastTo;
    if e > 0 {
      ReceivedExactly(hs, acts, e - 1, c, m);
      StepReceives(hs[e - 1], acts[e - 1], c, m);
    }
  }

  /** A handler past its membership check comes from a member's call, with that call's arguments. */
  lemma {:induction false} CheckedBefore(hs: seq<Hub>, acts: seq<Action>, i: nat, t: nat) returns (s: nat)
    requires IsRun(hs, acts) && i < |hs| && t in hs[i].sends && hs[i].sends[t].Checked?
    ensures var x := hs[i].sends[t];
            && s < i && acts[s] == CheckMember(t, x.client, x.room, x.senderId, x.content)
            && (x.client, x.room) in hs[s].members
  {
    var h, a := hs[i - 1], acts[i - 1];
    if t in h.sends && h.sends[t].Checked? {
      s := CheckedBefore(hs, acts, i - 1, t);
    } else {
      s := i - 1;
    }
  }

  /** Every message of the table was sent to its room by a member, under the sender's id, and with that content. */
  lemma {:induction false} EveryMessageWasSent(hs: seq<Hub>, acts: seq<Action>, e: nat, m: Message)
    returns (s: nat, k: nat, t: nat, c: Client)
    requires IsRun(hs, acts) && e < |hs| && m in hs[e].table
    ensures s < k < e
    ensures acts[s] == CheckMember(t, c, m.room, m.senderId, m.content) && (c, m.room) in hs[s].members
    ensures acts[k] == Insert(t, m.id, m.createdAt) && m !in hs[k].table
  {
    var h, a := hs[e - 1], acts[e - 1];
    if m in h.table {
      s, k, t, c := EveryMessageWasSent(hs, acts, e - 1, m);
    } else {
      k, t := e - 1, a.t;
      c := h.sends[t].client;
      s := CheckedBefore(hs, acts, k, t);
    }
  }

  /** No two handlers have `m`, and whoever has it has saved it. */
  ghost predicate HeldOnce(h: Hub, m: Message) {
    && (forall t, u :: t in h.sends && u in h.sends && h.sends[t] == Saved(m) == h.sends[u] ==> t == u)
    && (InFlight(h, m) ==> m in h.table)
  }

  /** As far as `c` and `m` go: one handler at most has the message, it reaches the inbox once, and after that no
      handler has it. */
  ghost predicate Once(h: Hub, c: Client, m: Message) {
    && HeldOnce(h, m)
    && (ReceivedLive(h, c, m) ==> m in h.table)
    && !(InFlight(h, m) && ReceivedLive(h, c, m))
    && multiset(InboxOf(h, c))[Live(m)] <= 1
  }

  /** A step adds one item at most to an inbox, and `m` to it exactly by its broadcast. */
  lemma InboxGrowsByOne(h: Hub, a: Action, c: Client, m: Message)
    ensures var was, now := InboxOf(h, c), InboxOf(Next(h, a), c);
            if BroadcastTo(h, a, c, m) then now == was + [Live(m)]
            else now == was || (now != [] && now == was + [now[|now| - 1]] && now[|now| - 1] != Live(m))
  {
    hide IsNewest;
    if a.Broadcast? && a.t in h.sends && h.sends[a.t].Saved? {
      var n := h.sends[a.t].message;
      assert c in (set p | p in h.members && p.1 == n.room :: p.0) <==> (c, n.room) in h.members;
    }
  }

  lemma NextHeldOnce(h: Hub, a: Action, c: Client, m: Message)
    requires HeldOnce(h, m)
    ensures HeldOnce(Next(h, a), m)
    ensures m in h.table ==> m in Next(h, a).table && (InFlight(Next(h, a), m) ==> InFlight(h, m))
    ensures BroadcastTo(h, a, c, m) ==> InFlight(h, m) && !InFlight(Next(h, a), m)
  {
    hide IsNewest;
  }

  lemma NextOnce(h: Hub, a: Action, c: Client, m: Message)
    requires Once(h, c, m)
    ensures Once(Next(h, a), c, m)
  {
    hide Next, BroadcastTo, InFlight;
    NextHeldOnce(h, a, c, m);
    StepReceives(h, a, c, m);
    InboxGrowsByOne(h, a, c, m);
  }

  /** No client receives a message live more than once. */
  lemma {:induction false} ReceivedOnce(hs: seq<Hub>, acts: seq<Action>, e: nat, c: Client, m: Message)
    requires IsRun(hs, acts) && e < |hs|
    ensures Once(hs[e], c, m) && multiset(InboxOf(hs[e], c))[Live(m)] <= 1
  {
    hide Next;
    if e > 0 {
      ReceivedOnce(hs, acts, e - 1, c, m);
      NextOnce(hs[e - 1], acts[e - 1], c, m);
    }
  }

  /** A handler that has joined a client comes from that client's call. */
  lemma {:induction false} JoinedBefore(hs: seq<Hub>, acts: seq<Action>, i: nat, t: nat) returns (a: nat)
    requires IsRun(hs, acts) && i < |hs| && t in hs[i].joins && hs[i].joins[t].Joined?
    ensures var j := hs[i].joins[t];
            a < i && acts[a] == JoinRoom(t, j.client, j.room) && t !in hs[a].joins
  {
    hide IsNewest;
    var h := hs[i - 1];
    if t in h.joins && h.joins[t].Joined? {
      a := JoinedBefore(hs, acts, i - 1, t);
    } else {
      a := i - 1;
    }
  }

  lemma {:induction false} QueriedBefore(hs: seq<Hub>, acts: seq<Action>, i: nat, t: nat) returns (a: nat, q: nat)
    requires IsRun(hs, acts) && i < |hs| && t in hs[i].joins && hs[i].joins[t].Queried?
    ensures var j := hs[i].joins[t];
            q < i && JoinedAndQueried(hs, acts, t, j.client, j.room, a, q, j.answer)
  {
    hide IsNewest;
    var h := hs[i - 1];
    if t in h.joins && h.joins[t].Queried? {
      a, q := QueriedBefore(hs, acts, i - 1, t);
    } else {
      q := i - 1;
      a := JoinedBefore(hs, acts, q, t);
    }
  }

  /** Every history in a client's inbox answers a join of that very client, and is the room's fifty newest messages
      as of then, oldest first. */
  lemma {:induction false} HistoryWasAskedFor(hs: seq<Hub>, acts: seq<Action>, e: nat, c: Client, room: string,
                                              messages: seq<Message>)
    returns (t: nat, a: nat, q: nat, answer: seq<Message>)
    requires IsRun(hs, acts) && e < |hs| && History(room, messages) in InboxOf(hs[e], c)
    ensures q < e && JoinedAndQueried(hs, acts, t, c, room, a, q, answer)
    ensures messages == Reversed(answer) && IsNewest(answer, hs[q].table, room, 50)
  {
    hide IsNewest;
    var h, s := hs[e - 1], acts[e - 1];
    if History(room, messages) in InboxOf(h, c) {
      t, a, q, answer := HistoryWasAskedFor(hs, acts, e - 1, c, room, messages);
    } else {
      assert s.SendHistory?;
      t, answer := s.t, h.joins[s.t].answer;
      a, q := QueriedBefore(hs, acts, e - 1, t);
      assert hs[q + 1] == Next(hs[q], acts[q]);
    }
  }
}
