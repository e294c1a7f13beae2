/**
 * The WebSocket signalling relay (server/signaling-server.js).
 *
 * A process-wide table maps each room id to the set of connections in that
 * room. The connection handler admits a socket into the room named by its
 * `room` query parameter, the message handler relays every well-formed JSON
 * message to the other open occupants, the close handler removes the socket
 * (deleting the room when it becomes empty) and the health endpoint reports
 * the number of rooms and of connections.
 *
 * Sockets are connection ids. A socket's `readyState === OPEN` is membership
 * of `open`; `ws.send(JSON.stringify(m))` appends `m` to the socket's outbox.
 */
module Signaling {
  import opened Wrappers

  type ConnId = nat
  type RoomId = string

  /** The close code for a policy violation (RFC 6455, section 7.4.1). */
  const PolicyViolation: int := 1008
  const RoomIdRequired: string := "Room ID required"

  /** A parsed JSON value; the relay forwards it unchanged, apart from dropping `null`. */
  datatype Json =
    | JNull
    | JBool(b: bool)
    | JNumber(n: real)
    | JString(s: string)
    | JArray(items: seq<Json>)
    | JObject(fields: seq<(string, Json)>)

  /** What the server writes to a socket. */
  datatype Msg =
    | RoomJoined(roomId: RoomId, participants: nat)
    | ParticipantJoined(roomId: RoomId)
    | ParticipantLeft(roomId: RoomId)
    | Relayed(data: Json)

  /** Outcome of the connection handler. */
  datatype Admission = Admitted(roomId: RoomId) | Refused(code: int, reason: string)

  type Rooms = map<RoomId, set<ConnId>>
  type Outboxes = map<ConnId, seq<Msg>>

  /** The occupants of room `r`, empty when the room is not stored. */
  function Occupants(rooms: Rooms, r: RoomId): set<ConnId>
  {
    if r in rooms then rooms[r] else {}
  }

  /** Everything written so far to socket `c`. */
  function Sent(outbox: Outboxes, c: ConnId): seq<Msg>
  {
    if c in outbox then outbox[c] else []
  }

  ghost predicate NoEmptyRoom(rooms: Rooms)
  {
    forall r :: r in rooms ==> rooms[r] != {}
  }

  /** No connection is in two rooms. */
  ghost predicate Disjoint(rooms: Rooms)
  {
    forall r, q :: r in rooms && q in rooms && r != q ==> rooms[r] !! rooms[q]
  }

  /** Every connection that is in some room. */
  ghost function AllOccupants(rooms: Rooms): set<ConnId>
  {
    set r, c | r in rooms && c in rooms[r] :: c
  }

  // ---------------------------------------------------------------------------
  // The room table as a value
  // ---------------------------------------------------------------------------

  /** Create room `r` on first use and add `c` to it. */
  function Join(rooms: Rooms, r: RoomId, c: ConnId): (rooms': Rooms)
    ensures NoEmptyRoom(rooms) ==> NoEmptyRoom(rooms')
    ensures r in rooms' && Occupants(rooms', r) == Occupants(rooms, r) + {c}
    ensures forall q :: q != r ==> Occupants(rooms', q) == Occupants(rooms, q) && (q in rooms' <==> q in rooms)
  {
    rooms[r := Occupants(rooms, r) + {c}]
  }

  /** Remove `c` from room `r`, deleting the room once it is empty; a room that is not stored is left alone. */
  function Leave(rooms: Rooms, r: RoomId, c: ConnId): (rooms': Rooms)
    ensures NoEmptyRoom(rooms) ==> NoEmptyRoom(rooms')
    ensures Occupants(rooms', r) == Occupants(rooms, r) - {c}
    ensures r in rooms' <==> Occupants(rooms, r) - {c} != {}
    ensures forall q :: q != r ==> Occupants(rooms', q) == Occupants(rooms, q) && (q in rooms' <==> q in rooms)
  {
    if r !in rooms then rooms
    else if rooms[r] - {c} == {} then rooms - {r}
    else rooms[r := rooms[r] - {c}]
  }

  /** A connection that joins a room and then leaves it leaves the table as it found it. */
  lemma LeaveUndoesJoin(rooms: Rooms, r: RoomId, c: ConnId)
    requires NoEmptyRoom(rooms)
    requires c !in Occupants(rooms, r)
    ensures Leave(Join(rooms, r, c), r, c) == rooms
  {
    var after := Leave(Join(rooms, r, c), r, c);
    if r in rooms {
      assert rooms[r] != {};
      assert Occupants(rooms, r) + {c} - {c} == rooms[r];
    } else {
      assert Occupants(rooms, r) + {c} - {c} == {};
    }
    assert after.Keys == rooms.Keys;
    forall q | q in rooms
      ensures after[q] == rooms[q]
    {
      assert Occupants(after, q) == Occupants(rooms, q);
    }
  }

  // ---------------------------------------------------------------------------
  // The connection count reported by the health endpoint
  // ---------------------------------------------------------------------------

  ghost function AnyRoom(rooms: Rooms): (r: RoomId)
    requires rooms != map[]
    ensures r in rooms
  {
    var r :| r in rooms; r
  }

  lemma RemoveShrinks(rooms: Rooms, r: RoomId)
    requires r in rooms
    ensures |rooms - {r}| == |rooms| - 1
  {
    assert (rooms - {r}).Keys == rooms.Keys - {r};
  }

  /** The sum of the sizes of all rooms (the reduce in the health endpoint). */
  ghost function TotalConnections(rooms: Rooms): nat
    decreases |rooms|
  {
    if rooms == map[] then 0
    else
      var r := AnyRoom(rooms);
      RemoveShrinks(rooms, r);
      |rooms[r]| + TotalConnections(rooms - {r})
  }

  /** The sum does not depend on the order in which rooms are visited. */
  lemma {:induction false} TotalConnectionsRemove(rooms: Rooms, r: RoomId)
    requires r in rooms
    ensures TotalConnections(rooms) == |rooms[r]| + TotalConnections(rooms - {r})
    decreases |rooms|
  {
    var q := AnyRoom(rooms);
    if q != r {
      RemoveShrinks(rooms, q);
      RemoveShrinks(rooms, r);
      TotalConnectionsRemove(rooms - {q}, r);
      TotalConnectionsRemove(rooms - {r}, q);
      assert rooms - {q} - {r} == rooms - {r} - {q};
    }
  }

  /** When no connection is in two rooms, the sum of room sizes counts distinct connections. */
  lemma {:induction false} TotalConnectionsCountsOccupants(rooms: Rooms)
    requires Disjoint(rooms)
    ensures TotalConnections(rooms) == |AllOccupants(rooms)|
    decreases |rooms|
  {
    if rooms == map[] {
      assert AllOccupants(rooms) == {};
    } else {
      var r := AnyRoom(rooms);
      RemoveShrinks(rooms, r);
      AllOccupantsSplit(rooms, r);
      TotalConnectionsCountsOccupants(rooms - {r});
    }
  }

  /** The occupants of disjoint rooms are those of one room plus, separately, those of the others. */
  lemma AllOccupantsSplit(rooms: Rooms, r: RoomId)
    requires Disjoint(rooms) && r in rooms
    ensures Disjoint(rooms - {r})
    ensures AllOccupants(rooms) == rooms[r] + AllOccupants(rooms - {r})
    ensures rooms[r] !! AllOccupants(rooms - {r})
  {
    var rest := rooms - {r};
    forall c | c in AllOccupants(rooms)
      ensures c in rooms[r] + AllOccupants(rest)
    {
      var q :| q in rooms && c in rooms[q];
      if q != r {
        assert q in rest && c in rest[q];
      }
    }
    forall c | c in AllOccupants(rest)
      ensures c in AllOccupants(rooms) && c !in rooms[r]
    {
      var q :| q in rest && c in rest[q];
      assert q in rooms && q != r;
    }
  }

  /** Joining a connection not yet in the room adds exactly one to the count. */
  lemma JoinCountsOne(rooms: Rooms, r: RoomId, c: ConnId)
    requires c !in Occupants(rooms, r)
    ensures TotalConnections(Join(rooms, r, c)) == TotalConnections(rooms) + 1
  {
    var joined := Join(rooms, r, c);
    TotalConnectionsRemove(joined, r);
    assert joined - {r} == rooms - {r};
    if r in rooms {
      TotalConnectionsRemove(rooms, r);
    } else {
      assert rooms - {r} == rooms;
    }
  }

  /** Removing an occupant subtracts exactly one from the count. */
  lemma LeaveCountsOne(rooms: Rooms, r: RoomId, c: ConnId)
    requires c in Occupants(rooms, r)
    ensures TotalConnections(Leave(rooms, r, c)) + 1 == TotalConnections(rooms)
  {
    var left := Leave(rooms, r, c);
    TotalConnectionsRemove(rooms, r);
    if r in left {
      TotalConnectionsRemove(left, r);
      assert left - {r} == rooms - {r};
    } else {
      assert rooms[r] == {c};
      assert left == rooms - {r};
    }
  }

  // ---------------------------------------------------------------------------
  // The registry invariant
  // ---------------------------------------------------------------------------

  /** Connections admitted (their handlers captured a room id) and not yet closed. */
  function Live(roomOf: map<ConnId, RoomId>, closed: set<ConnId>): set<ConnId>
  {
    set c | c in roomOf && c !in closed
  }

  /** The connections that joined room `r` minus those that have closed. */
  function Members(roomOf: map<ConnId, RoomId>, closed: set<ConnId>, r: RoomId): set<ConnId>
  {
    set c | c in roomOf && roomOf[c] == r && c !in closed
  }

  /**
   * No room is stored empty, each stored room holds exactly the connections
   * that joined it and have not closed, and every such connection's room is stored.
   */
  ghost predicate Registry(rooms: Rooms, roomOf: map<ConnId, RoomId>, closed: set<ConnId>)
  {
    && NoEmptyRoom(rooms)
    && (forall r :: r in rooms ==> rooms[r] == Members(roomOf, closed, r))
    && (forall c :: c in roomOf && c !in closed ==> roomOf[c] in rooms)
  }

  /** The registry's rooms are disjoint and together hold exactly the live connections. */
  lemma RegistryOccupants(rooms: Rooms, roomOf: map<ConnId, RoomId>, closed: set<ConnId>)
    requires Registry(rooms, roomOf, closed)
    ensures Disjoint(rooms)
    ensures AllOccupants(rooms) == Live(roomOf, closed)
  {
    forall c | c in Live(roomOf, closed)
      ensures c in AllOccupants(rooms)
    {
      var r := roomOf[c];
      assert c in Members(roomOf, closed, r);
    }
  }

  /** The count the health endpoint reports is the number of live connections. */
  lemma TotalConnectionsAreLive(rooms: Rooms, roomOf: map<ConnId, RoomId>, closed: set<ConnId>)
    requires Registry(rooms, roomOf, closed)
    ensures TotalConnections(rooms) == |Live(roomOf, closed)|
  {
    RegistryOccupants(rooms, roomOf, closed);
    TotalConnectionsCountsOccupants(rooms);
  }

  /** Admitting a fresh connection into room `r` keeps the registry invariant. */
  lemma JoinKeepsRegistry(rooms: Rooms, roomOf: map<ConnId, RoomId>, closed: set<ConnId>, r: RoomId, c: ConnId)
    requires Registry(rooms, roomOf, closed)
    requires c !in roomOf && c !in closed
    ensures Registry(Join(rooms, r, c), roomOf[c := r], closed)
    ensures c !in Occupants(rooms, r)
    ensures Live(roomOf[c := r], closed) == Live(roomOf, closed) + {c}
  {
    var rooms', roomOf' := Join(rooms, r, c), roomOf[c := r];
    assert r in rooms ==> c !in Members(roomOf, closed, r);
    forall q | q in rooms'
      ensures rooms'[q] == Members(roomOf', closed, q)
    {
      if q == r {
        if r in rooms {
          assert Members(roomOf', closed, r) == Members(roomOf, closed, r) + {c};
        } else {
          assert forall x :: x in roomOf && x !in closed ==> roomOf[x] != r;
          assert Members(roomOf', closed, r) == {c};
        }
      } else {
        assert Members(roomOf', closed, q) == Members(roomOf, closed, q);
      }
    }
  }

  /** Closing a socket that was never admitted changes neither the rooms nor the live connections. */
  lemma RefuseKeepsRegistry(rooms: Rooms, roomOf: map<ConnId, RoomId>, closed: set<ConnId>, c: ConnId)
    requires Registry(rooms, roomOf, closed)
    requires c !in roomOf
    ensures Registry(rooms, roomOf, closed + {c})
    ensures Live(roomOf, closed + {c}) == Live(roomOf, closed)
  {
    forall q | q in rooms
      ensures Members(roomOf, closed + {c}, q) == Members(roomOf, closed, q)
    {
    }
  }

  /** Closing a live connection and removing it from its room keeps the registry invariant. */
  lemma CloseKeepsRegistry(rooms: Rooms, roomOf: map<ConnId, RoomId>, closed: set<ConnId>, c: ConnId)
    requires Registry(rooms, roomOf, closed)
    requires c in roomOf && c !in closed
    ensures Registry(Leave(rooms, roomOf[c], c), roomOf, closed + {c})
  {
    var r := roomOf[c];
    var rooms' := Leave(rooms, r, c);
    forall q | q in rooms'
      ensures rooms'[q] == Members(roomOf, closed + {c}, q)
    {
      if q == r {
        assert Members(roomOf, closed + {c}, r) == Members(roomOf, closed, r) - {c};
      } else {
        assert Members(roomOf, closed + {c}, q) == Members(roomOf, closed, q);
      }
    }
    forall x | x in roomOf && x !in closed + {c}
      ensures roomOf[x] in rooms'
    {
      var q := roomOf[x];
      assert x in Members(roomOf, closed, q);
      if q == r {
        assert x in Occupants(rooms, r) - {c};
      }
    }
  }

  // ---------------------------------------------------------------------------
  // Fan-out
  // ---------------------------------------------------------------------------

  /**
   * The outboxes after `m` is written to every occupant that is open and not
   * in `skip`: each such socket receives `m` exactly once, every other socket
   * nothing.
   */
  function FanOut(outbox: Outboxes, occupants: set<ConnId>, open: set<ConnId>, skip: set<ConnId>, m: Msg): (r: Outboxes)
    ensures forall c :: Sent(r, c) == if c in occupants && c in open && c !in skip then Sent(outbox, c) + [m] else Sent(outbox, c)
    ensures r.Keys == outbox.Keys + (occupants * open - skip)
  {
    map c | c in outbox.Keys + (occupants * open - skip) ::
      if c in occupants && c in open && c !in skip then Sent(outbox, c) + [m] else outbox[c]
  }

  /** Visiting one more occupant `x` writes `m` to it when it is open and not skipped. */
  lemma FanOutStep(outbox: Outboxes, done: set<ConnId>, x: ConnId, open: set<ConnId>, skip: set<ConnId>, m: Msg)
    requires x !in done
    ensures var before := FanOut(outbox, done, open, skip, m);
      FanOut(outbox, done + {x}, open, skip, m)
        == if x in open && x !in skip then before[x := Sent(before, x) + [m]] else before
  {
    var before := FanOut(outbox, done, open, skip, m);
    var after := FanOut(outbox, done + {x}, open, skip, m);
    var expected := if x in open && x !in skip then before[x := Sent(before, x) + [m]] else before;
    assert after.Keys == expected.Keys;
    forall c | c in after.Keys
      ensures after[c] == expected[c]
    {
      assert Sent(after, c) == after[c];
      assert Sent(expected, c) == expected[c];
    }
  }

  // ---------------------------------------------------------------------------
  // The server
  // ---------------------------------------------------------------------------

  class Server {
    /** The `rooms` map: room id to the set of sockets in it. */
    var rooms: Rooms
    /** The room id each admitted socket's handlers captured when it connected. */
    var roomOf: map<ConnId, RoomId>
    /** Sockets whose readyState is OPEN. */
    var open: set<ConnId>
    /** Sockets that have been closed (refused ones, and those whose close handler ran). */
    var closed: set<ConnId>
    /** Everything written to each socket. */
    var outbox: Outboxes

    ghost predicate Valid()
      reads this
    {
      && Registry(rooms, roomOf, closed)
      && open <= Live(roomOf, closed)
      && outbox.Keys <= roomOf.Keys
    }

    constructor ()
      ensures Valid()
      ensures rooms == map[] && roomOf == map[] && open == {} && closed == {} && outbox == map[]
    {
      rooms, roomOf, open, closed, outbox := map[], map[], {}, {}, map[];
    }

    /**
     * The `forEach` over a room's sockets: write `m` to each socket that is
     * open and not in `skip`.
     */
    method Broadcast(occupants: set<ConnId>, skip: set<ConnId>, m: Msg)
      modifies this`outbox
      ensures outbox == FanOut(old(outbox), occupants, open, skip, m)
    {
      var pending := occupants;
      ghost var done: set<ConnId> := {};
      while pending != {}
        invariant done <= occupants && pending == occupants - done
        invariant outbox == FanOut(old(outbox), done, open, skip, m)
        decreases pending
      {
        var client :| client in pending;
        FanOutStep(old(outbox), done, client, open, skip, m);
        if client !in skip && client in open {
          outbox := outbox[client := Sent(outbox, client) + [m]];
        }
        pending := pending - {client};
        done := done + {client};
      }
      assert done == occupants;
    }

    /**
     * The connection handler. Without a room id the socket is closed with
     * code 1008 and nothing else changes; otherwise it is admitted.
     */
    method Connect(c: ConnId, room: Option<RoomId>) returns (result: Admission)
      requires Valid()
      requires c !in roomOf && c !in closed
      modifies this
      ensures Valid()
      ensures result.Admitted? <==> room.Some? && room.value != ""
      ensures result.Refused? ==>
        && result == Refused(PolicyViolation, RoomIdRequired)
        && rooms == old(rooms) && roomOf == old(roomOf) && open == old(open)
        && closed == old(closed) + {c} && outbox == old(outbox)
      ensures result.Admitted? ==>
        && result.roomId == room.value
        && rooms == Join(old(rooms), room.value, c)
        && roomOf == old(roomOf)[c := room.value] && open == old(open) + {c} && closed == old(closed)
        && |rooms[room.value]| == |old(Occupants(rooms, room.value))| + 1
        && outbox == FanOut(old(outbox)[c := [RoomJoined(room.value, |rooms[room.value]|)]],
                            rooms[room.value], open, {c}, ParticipantJoined(room.value))
        && Sent(outbox, c) == [RoomJoined(room.value, |rooms[room.value]|)]
    {
      if room.None? || room.value == "" {
        RefuseKeepsRegistry(rooms, roomOf, closed, c);
        closed := closed + {c};
        return Refused(PolicyViolation, RoomIdRequired);
      }
      Admit(c, room.value);
      result := Admitted(room.value);
    }

    /**
     * Admission into room `r`: the socket joins the room and is told the
     * occupant count, then every other open occupant is told that someone
     * joined.
     */
    method Admit(c: ConnId, r: RoomId)
      requires Valid()
      requires c !in roomOf && c !in closed
      modifies this
      ensures Valid()
      ensures rooms == Join(old(rooms), r, c)
      ensures roomOf == old(roomOf)[c := r] && open == old(open) + {c} && closed == old(closed)
      ensures |rooms[r]| == |old(Occupants(rooms, r))| + 1
      ensures outbox == FanOut(old(outbox)[c := [RoomJoined(r, |rooms[r]|)]], rooms[r], open, {c}, ParticipantJoined(r))
      ensures Sent(outbox, c) == [RoomJoined(r, |rooms[r]|)]
    {
      Enroll(c, r);
      Broadcast(rooms[r], {c}, ParticipantJoined(r));
    }

    /**
     * The socket joins room `r`, which is created on first use, and its
     * outbox starts with `room-joined` carrying the new occupant count.
     */
    method Enroll(c: ConnId, r: RoomId)
      requires Valid()
      requires c !in roomOf && c !in closed
      modifies this`rooms, this`roomOf, this`open, this`outbox
      ensures Valid()
      ensures rooms == Join(old(rooms), r, c)
      ensures roomOf == old(roomOf)[c := r] && open == old(open) + {c}
      ensures |rooms[r]| == |old(Occupants(rooms, r))| + 1
      ensures outbox == old(outbox)[c := [RoomJoined(r, |rooms[r]|)]] && c !in old(outbox)
    {
      JoinKeepsRegistry(rooms, roomOf, closed, r, c);
      var joined := Join(rooms, r, c);
      assert c !in outbox;
      rooms, roomOf, open, outbox := joined, roomOf[c := r], open + {c}, outbox[c := [RoomJoined(r, |joined[r]|)]];
    }

    /**
     * The message handler. A frame that parsed (`Some`) is written unchanged
     * to every other open socket of the sender's room; one that did not
     * parse (`None`) is dropped, and so is the JSON `null`, on which reading
     * `data.type` for the log line throws inside the same `try`.
     */
    method Relay(c: ConnId, frame: Option<Json>)
      requires Valid()
      requires c in roomOf && c !in closed
      modifies this`outbox
      ensures Valid()
      ensures roomOf[c] in rooms && c in rooms[roomOf[c]]
      ensures frame.None? || frame == Some(JNull) ==> outbox == old(outbox)
      ensures frame.Some? && frame.value != JNull ==>
        outbox == FanOut(old(outbox), rooms[roomOf[c]], open, {c}, Relayed(frame.value))
    {
      assert c in Members(roomOf, closed, roomOf[c]);
      match frame {
        case None =>
        case Some(JNull) =>
        case Some(data) =>
          Broadcast(rooms[roomOf[c]], {c}, Relayed(data));
      }
    }

    /** The transport starts closing a socket: its readyState is no longer OPEN. */
    method StartClosing(c: ConnId)
      requires Valid()
      modifies this`open
      ensures Valid()
      ensures open == old(open) - {c}
    {
      open := open - {c};
    }

    /**
     * The close handler. The socket leaves its room; the room is deleted when
     * it becomes empty, and otherwise every remaining open socket is told
     * that someone left.
     */
    method Close(c: ConnId)
      requires Valid()
      requires c in roomOf && c !in closed
      modifies this
      ensures Valid()
      ensures roomOf == old(roomOf) && open == old(open) - {c} && closed == old(closed) + {c}
      ensures rooms == Leave(old(rooms), roomOf[c], c)
      ensures roomOf[c] !in rooms <==> old(rooms[roomOf[c]]) == {c}
      ensures outbox == if roomOf[c] in rooms
                        then FanOut(old(outbox), rooms[roomOf[c]], open, {}, ParticipantLeft(roomOf[c]))
                        else old(outbox)
    {
      var r := roomOf[c];
      Withdraw(c);
      if r in rooms {
        Broadcast(rooms[r], {}, ParticipantLeft(r));
      }
    }

    /**
     * The socket is closed and leaves its room, which is deleted once it is
     * empty.
     */
    method Withdraw(c: ConnId)
      requires Valid()
      requires c in roomOf && c !in closed
      modifies this`open, this`closed, this`rooms
      ensures Valid()
      ensures open == old(open) - {c} && closed == old(closed) + {c}
      ensures rooms == Leave(old(rooms), roomOf[c], c)
      ensures roomOf[c] !in rooms <==> old(rooms[roomOf[c]]) == {c}
    {
      var r := roomOf[c];
      assert c in Members(roomOf, closed, r);
      CloseKeepsRegistry(rooms, roomOf, closed, c);
      open, closed, rooms := open - {c}, closed + {c}, Leave(rooms, r, c);
    }

    /** The health endpoint: the number of rooms and the sum of their sizes. */
    method Health() returns (roomCount: nat, totalConnections: nat)
      requires Valid()
      ensures roomCount == |rooms|
      ensures totalConnections == TotalConnections(rooms)
      ensures totalConnections == |Live(roomOf, closed)|
    {
      roomCount := |rooms|;
      totalConnections := 0;
      var pending := rooms.Keys;
      while pending != {}
        invariant pending <= rooms.Keys
        invariant totalConnections == TotalConnections(rooms - pending)
        decreases pending
      {
        var r :| r in pending;
        var counted := rooms - (pending - {r});
        TotalConnectionsRemove(counted, r);
        assert counted - {r} == rooms - pending;
        totalConnections := totalConnections + |rooms[r]|;
        pending := pending - {r};
      }
      assert rooms - {} == rooms;
      TotalConnectionsAreLive(rooms, roomOf, closed);
    }
  }
}
