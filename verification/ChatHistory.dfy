/** `ChatService`: the message table and its newest-first history query. */
module ChatHistory {
  import opened Base

  /** A row of `messages`; `createdAt` is the database's timestamp. */
  datatype Message = Message(id: nat, room: string, senderId: string, content: string, createdAt: int)

  function InRoom(table: seq<Message>, room: string): seq<Message> {
    if table == [] then []
    else if table[|table| - 1].room == room then InRoom(table[..|table| - 1], room) + [table[|table| - 1]]
    else InRoom(table[..|table| - 1], room)
  }

  /** `m` placed by `ORDER BY createdAt DESC`. */
  function Placed(m: Message, ms: seq<Message>): seq<Message> {
    if ms == [] || m.createdAt >= ms[0].createdAt then [m] + ms else [ms[0]] + Placed(m, ms[1..])
  }

  function NewestFirst(ms: seq<Message>): seq<Message> {
    if ms == [] then [] else Placed(ms[|ms| - 1], NewestFirst(ms[..|ms| - 1]))
  }

  /** `find({ where: { room }, order: { createdAt: 'DESC' }, take: limit })` */
  function RoomHistory(table: seq<Message>, room: string, limit: nat): seq<Message> {
    var all := NewestFirst(InRoom(table, room));
    if |all| <= limit then all else all[..limit]
  }

  predicate Descending(ms: seq<Message>) {
    forall i, j :: 0 <= i < j < |ms| ==> ms[i].createdAt >= ms[j].createdAt
  }

  predicate Ascending(ms: seq<Message>) {
    forall i, j :: 0 <= i < j < |ms| ==> ms[i].createdAt <= ms[j].createdAt
  }

  lemma {:induction false} InRoomExactly(table: seq<Message>, room: string, m: Message)
    ensures m in InRoom(table, room) <==> m in table && m.room == room
  {
    if table != [] {
      InRoomExactly(table[..|table| - 1], room, m);
      assert table == table[..|table| - 1] + [table[|table| - 1]];
    }
  }

  lemma {:induction false} PlacedKeeps(m: Message, ms: seq<Message>)
    ensures multiset(Placed(m, ms)) == multiset(ms) + multiset{m}
  {
    if !(ms == [] || m.createdAt >= ms[0].createdAt) {
      PlacedKeeps(m, ms[1..]);
      assert ms == [ms[0]] + ms[1..];
    }
  }

  lemma {:induction false} PlacedSorts(m: Message, ms: seq<Message>)
    requires Descending(ms)
    ensures Descending(Placed(m, ms))
  {
    if !(ms == [] || m.createdAt >= ms[0].createdAt) {
      var rest := Placed(m, ms[1..]);
      PlacedSorts(m, ms[1..]);
      PlacedKeeps(m, ms[1..]);
      forall i | 0 <= i < |rest|
        ensures rest[i].createdAt <= ms[0].createdAt
      {
        assert rest[i] in multiset(rest);
        assert rest[i] == m || rest[i] in ms[1..];
      }
    }
  }

  lemma {:induction false} NewestFirstSorts(ms: seq<Message>)
    ensures Descending(NewestFirst(ms))
    ensures multiset(NewestFirst(ms)) == multiset(ms)
  {
    if ms != [] {
      NewestFirstSorts(ms[..|ms| - 1]);
      PlacedSorts(ms[|ms| - 1], NewestFirst(ms[..|ms| - 1]));
      PlacedKeeps(ms[|ms| - 1], NewestFirst(ms[..|ms| - 1]));
      assert ms == ms[..|ms| - 1] + [ms[|ms| - 1]];
    }
  }

  /** `h` is what a newest-first query limited to `limit` may answer: rows of the room, each at most as
      often as the table has it, newest first, as many as there are up to the limit, and none left out
      that is newer than one inside. */
  ghost predicate IsNewest(h: seq<Message>, table: seq<Message>, room: string, limit: nat) {
    && Descending(h)
    && |h| == Min(limit, |InRoom(table, room)|)
    && multiset(h) <= multiset(InRoom(table, room))
    && (forall m :: m in h ==> m in table && m.room == room)
    && (forall m :: m in table && m.room == room && m !in h ==>
          |h| == limit && forall x :: x in h ==> x.createdAt >= m.createdAt)
  }

  /** All messages of the room, newest first. */
  lemma SortedRoom(table: seq<Message>, room: string)
    ensures var all := NewestFirst(InRoom(table, room));
            && Descending(all) && multiset(all) == multiset(InRoom(table, room)) && |all| == |InRoom(table, room)|
            && forall m :: m in all <==> m in table && m.room == room
  {
    var ms := InRoom(table, room);
    var all := NewestFirst(ms);
    NewestFirstSorts(ms);
    assert |all| == |multiset(all)| == |multiset(ms)| == |ms|;
    forall m: Message
      ensures m in all <==> m in table && m.room == room
    {
      InRoomExactly(table, room, m);
      assert m in all <==> m in multiset(all);
      assert m in ms <==> m in multiset(ms);
    }
  }

  lemma PrefixIsSmaller(all: seq<Message>, n: nat)
    requires n <= |all|
    ensures multiset(all[..n]) <= multiset(all)
  {
    assert all == all[..n] + all[n..];
  }

  lemma HistoryIsNewest(table: seq<Message>, room: string, limit: nat)
    ensures IsNewest(RoomHistory(table, room, limit), table, room, limit)
  {
    var all := NewestFirst(InRoom(table, room));
    var h := RoomHistory(table, room, limit);
    SortedRoom(table, room);
    PrefixIsSmaller(all, |h|);
    assert h == all[..|h|];
    forall m | m in all && m !in h
      ensures |h| == limit && forall x :: x in h ==> x.createdAt >= m.createdAt
    {
      var i :| 0 <= i < |all| && all[i] == m;
    }
  }

  /** `history.reverse()` */
  function Reversed(ms: seq<Message>): (r: seq<Message>)
    ensures |r| == |ms| && forall i :: 0 <= i < |ms| ==> r[i] == ms[|ms| - 1 - i]
  {
    if ms == [] then [] else [ms[|ms| - 1]] + Reversed(ms[..|ms| - 1])
  }

  /** The client receives the same messages, oldest first. */
  lemma ReversedIsChronological(ms: seq<Message>)
    requires Descending(ms)
    ensures Ascending(Reversed(ms))
    ensures forall m :: m in Reversed(ms) <==> m in ms
  {
    var r := Reversed(ms);
    forall m | m in ms
      ensures m in r
    {
      var i :| 0 <= i < |ms| && ms[i] == m;
      assert r[|ms| - 1 - i] == m;
    }
  }
}
