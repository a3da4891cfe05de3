/**
 * The server's WebSocket bookkeeping: every open connection is a session,
 * which authenticates as a user and then joins the chat room of one
 * household. Two maps are kept side by side, sessions by id and rooms by
 * household, and they must agree: a session is listed in a room exactly
 * when the session says it is in that household's room.
 */
module WebSocket {
  import opened Wrappers
  import opened Types

  /** A session; its outgoing channel is not modelled. */
  datatype ClientSession = ClientSession(userId: Option<Uuid>, username: Option<string>, householdId: Option<Uuid>)

  type Sessions = map<Uuid, ClientSession>
  type Rooms = map<Uuid, set<Uuid>>

  /**
   * The agreement between the two maps: room membership is the session's
   * household both ways, no room is empty, and only authenticated sessions
   * are in a room.
   */
  predicate Inv(ss: Sessions, rs: Rooms)
  {
    (forall h, s :: h in rs && s in rs[h] ==> s in ss && ss[s].householdId == Some(h))
    && (forall s :: s in ss && ss[s].householdId.Some? ==>
          ss[s].householdId.value in rs && s in rs[ss[s].householdId.value])
    && (forall h :: h in rs ==> rs[h] != {})
    && (forall s :: s in ss && ss[s].householdId.Some? ==> ss[s].userId.Some?)
  }

  /** The sessions in household h's room, read from the sessions map. */
  function Members(ss: Sessions, h: Uuid): set<Uuid>
  {
    set s | s in ss && ss[s].householdId == Some(h)
  }

  lemma RoomIsMembers(ss: Sessions, rs: Rooms, h: Uuid)
    requires Inv(ss, rs)
    ensures h in rs ==> rs[h] == Members(ss, h)
    ensures h !in rs ==> Members(ss, h) == {}
  {
    forall s | s in Members(ss, h)
      ensures h in rs && s in rs[h]
    {
      assert ss[s].householdId.value == h;
    }
    if h in rs {
      forall s | s in rs[h]
        ensures s in Members(ss, h)
      {
        assert s in ss && ss[s].householdId == Some(h);
      }
    }
  }

  // ---------------------------------------------------------------------
  // The transitions, on the two maps

  /** register: a fresh session, not authenticated and in no room, replacing any with that id. */
  function Registered(ss: Sessions, sid: Uuid): Sessions
  {
    ss[sid := ClientSession(None, None, None)]
  }

  /** leave_room on the sessions map: the session forgets its household. */
  function LeftSessions(ss: Sessions, sid: Uuid): Sessions
  {
    if sid in ss && ss[sid].householdId.Some? then ss[sid := ss[sid].(householdId := None)] else ss
  }

  /** leave_room on the rooms map: the session leaves its room, which goes once empty. */
  function LeftRooms(ss: Sessions, rs: Rooms, sid: Uuid): Rooms
  {
    if sid in ss && ss[sid].householdId.Some? && ss[sid].householdId.value in rs then
      var h := ss[sid].householdId.value;
      var room := rs[h] - {sid};
      if room == {} then rs - {h} else rs[h := room]
    else rs
  }

  /** Whether join_room lets the session in: it exists and is authenticated. */
  predicate MayJoin(ss: Sessions, sid: Uuid)
  {
    sid in ss && ss[sid].userId.Some?
  }

  /** Registering a new id keeps the maps in agreement. */
  lemma RegisterKeepsInv(ss: Sessions, rs: Rooms, sid: Uuid)
    requires Inv(ss, rs) && (sid !in ss || ss[sid].householdId.None?)
    ensures Inv(Registered(ss, sid), rs)
  {
  }

  /** Leaving keeps the maps in agreement and puts the session in no room. */
  lemma LeaveKeepsInv(ss: Sessions, rs: Rooms, sid: Uuid)
    requires Inv(ss, rs)
    ensures Inv(LeftSessions(ss, sid), LeftRooms(ss, rs, sid))
    ensures sid in LeftSessions(ss, sid) <==> sid in ss
    ensures sid in ss ==> LeftSessions(ss, sid)[sid].householdId.None?
    ensures forall h :: h in LeftRooms(ss, rs, sid) ==> sid !in LeftRooms(ss, rs, sid)[h]
  {
    if sid in ss && ss[sid].householdId.Some? {
      LeaveFromRoom(ss, rs, sid);
    }
  }

  lemma LeaveFromRoom(ss: Sessions, rs: Rooms, sid: Uuid)
    requires Inv(ss, rs) && sid in ss && ss[sid].householdId.Some?
    ensures Inv(LeftSessions(ss, sid), LeftRooms(ss, rs, sid))
    ensures forall h :: h in LeftRooms(ss, rs, sid) ==> sid !in LeftRooms(ss, rs, sid)[h]
  {
    var h := ss[sid].householdId.value;
    var ss' := ss[sid := ss[sid].(householdId := None)];
    var room := rs[h] - {sid};
    var rs' := if room == {} then rs - {h} else rs[h := room];
    assert ss' == LeftSessions(ss, sid) && rs' == LeftRooms(ss, rs, sid);
    forall h2, s | h2 in rs' && s in rs'[h2]
      ensures s in ss' && ss'[s].householdId == Some(h2)
    {
      assert s in rs[h2] && s != sid;
    }
    forall s | s in ss' && ss'[s].householdId.Some?
      ensures ss'[s].householdId.value in rs' && s in rs'[ss'[s].householdId.value]
    {
      assert s != sid && ss'[s] == ss[s];
      var h2 := ss[s].householdId.value;
      assert s in rs[h2];
      if h2 == h {
        assert s in room;
      }
    }
    forall h2 | h2 in rs'
      ensures rs'[h2] != {}
    {
    }
    forall h2 | h2 in rs' && h2 != h
      ensures sid !in rs'[h2]
    {
      assert rs'[h2] == rs[h2];
    }
  }

  /** The rooms after join_room has let the session in. */
  function JoinedRooms(rs: Rooms, sid: Uuid, h: Uuid): Rooms
  {
    rs[h := (if h in rs then rs[h] else {}) + {sid}]
  }

  /** Joining after leaving keeps the maps in agreement and puts the session in exactly room h. */
  lemma JoinKeepsInv(ss: Sessions, rs: Rooms, sid: Uuid, h: Uuid)
    requires Inv(ss, rs) && MayJoin(ss, sid)
    ensures var ss' := LeftSessions(ss, sid);
      var rs' := LeftRooms(ss, rs, sid);
      var ss2 := ss'[sid := ss'[sid].(householdId := Some(h))];
      var rs2 := JoinedRooms(rs', sid, h);
      Inv(ss2, rs2) && sid in rs2[h]
      && (forall h2 :: h2 in rs2 && h2 != h ==> sid !in rs2[h2])
  {
    LeaveKeepsInv(ss, rs, sid);
  }

  /** Disconnecting keeps the maps in agreement and leaves no trace of the session. */
  lemma DisconnectKeepsInv(ss: Sessions, rs: Rooms, sid: Uuid)
    requires Inv(ss, rs)
    ensures Inv(LeftSessions(ss, sid) - {sid}, LeftRooms(ss, rs, sid))
    ensures forall h :: h in LeftRooms(ss, rs, sid) ==> sid !in LeftRooms(ss, rs, sid)[h]
  {
    LeaveKeepsInv(ss, rs, sid);
  }

  // ---------------------------------------------------------------------
  // The manager

  class WsManager {
    var sessions: Sessions
    var rooms: Rooms

    predicate Valid()
      reads this
    {
      Inv(sessions, rooms)
    }

    /** new: no sessions, no rooms. */
    constructor ()
      ensures sessions == map[] && rooms == map[] && Valid()
    {
      sessions := map[];
      rooms := map[];
    }

    /**
     * register: the session starts unauthenticated and in no room. A
     * session id still in a room would stay listed there; ids are fresh.
     */
    method Register(sid: Uuid)
      requires Valid() && (sid !in sessions || sessions[sid].householdId.None?)
      modifies this
      ensures Valid()
      ensures sessions == Registered(old(sessions), sid) && rooms == old(rooms)
    {
      RegisterKeepsInv(sessions, rooms, sid);
      sessions := sessions[sid := ClientSession(None, None, None)];
    }

    /** authenticate: false for an unknown session; otherwise the user is recorded. */
    method Authenticate(sid: Uuid, userId: Uuid, username: string) returns (ok: bool)
      requires Valid()
      modifies this
      ensures Valid()
      ensures ok <==> sid in old(sessions)
      ensures ok ==> sessions == old(sessions)[sid := old(sessions)[sid].(userId := Some(userId), username := Some(username))]
      ensures !ok ==> sessions == old(sessions)
      ensures rooms == old(rooms)
    {
      if sid !in sessions {
        return false;
      }
      sessions := sessions[sid := sessions[sid].(userId := Some(userId), username := Some(username))];
      ok := true;
    }

    /** get_session_user: the user and name of an authenticated session. */
    method GetSessionUser(sid: Uuid) returns (r: Option<(Uuid, string)>)
      ensures r.Some? <==> sid in sessions && sessions[sid].userId.Some? && sessions[sid].username.Some?
      ensures r.Some? ==> r.value == (sessions[sid].userId.value, sessions[sid].username.value)
    {
      if sid in sessions && sessions[sid].userId.Some? && sessions[sid].username.Some? {
        return Some((sessions[sid].userId.value, sessions[sid].username.value));
      }
      return None;
    }

    /** get_session_household: the room the session is in, if any. */
    method GetSessionHousehold(sid: Uuid) returns (r: Option<Uuid>)
      requires Valid()
      ensures sid !in sessions ==> r == None
      ensures sid in sessions ==> r == sessions[sid].householdId
      ensures forall h :: r == Some(h) ==> h in rooms && sid in rooms[h]
    {
      if sid !in sessions {
        return None;
      }
      r := sessions[sid].householdId;
    }

    /** leave_room: out of the current room, which goes once empty; nothing happens without one. */
    method LeaveRoom(sid: Uuid)
      requires Valid()
      modifies this
      ensures Valid()
      ensures sessions == LeftSessions(old(sessions), sid) && rooms == LeftRooms(old(sessions), old(rooms), sid)
      ensures forall h :: h in rooms ==> sid !in rooms[h]
    {
      LeaveKeepsInv(sessions, rooms, sid);
      if sid in sessions && sessions[sid].householdId.Some? {
        var h := sessions[sid].householdId.value;
        sessions := sessions[sid := sessions[sid].(householdId := None)];
        if h in rooms {
          var room := rooms[h] - {sid};
          if room == {} {
            rooms := rooms - {h};
          } else {
            rooms := rooms[h := room];
          }
        }
      }
    }

    /**
     * join_room: leaves the current room first; false for an unknown or an
     * unauthenticated session, else the session is in exactly room h.
     */
    method JoinRoom(sid: Uuid, h: Uuid) returns (ok: bool)
      requires Valid()
      modifies this
      ensures Valid()
      ensures ok <==> MayJoin(old(sessions), sid)
      ensures !ok ==>
        sessions == LeftSessions(old(sessions), sid) && rooms == LeftRooms(old(sessions), old(rooms), sid)
      ensures ok ==> sid in sessions && sessions[sid].householdId == Some(h) && h in rooms && sid in rooms[h]
      ensures ok ==> forall h2 :: h2 in rooms && h2 != h ==> sid !in rooms[h2]
      ensures ok ==>
        sessions == LeftSessions(old(sessions), sid)[sid := old(sessions)[sid].(householdId := Some(h))]
      ensures ok ==> var left := LeftRooms(old(sessions), old(rooms), sid);
        rooms == left[h := (if h in left then left[h] else {}) + {sid}]
    {
      ghost var ss := sessions;
      ghost var rs := rooms;
      LeaveRoom(sid);
      if sid !in sessions || sessions[sid].userId.None? {
        return false;
      }
      JoinKeepsInv(ss, rs, sid, h);
      sessions := sessions[sid := sessions[sid].(householdId := Some(h))];
      rooms := rooms[h := (if h in rooms then rooms[h] else {}) + {sid}];
      ok := true;
    }

    /** disconnect: out of its room, then gone. */
    method Disconnect(sid: Uuid)
      requires Valid()
      modifies this
      ensures Valid()
      ensures sid !in sessions && forall h :: h in rooms ==> sid !in rooms[h]
      ensures sessions == LeftSessions(old(sessions), sid) - {sid}
      ensures rooms == LeftRooms(old(sessions), old(rooms), sid)
    {
      DisconnectKeepsInv(sessions, rooms, sid);
      LeaveRoom(sid);
      sessions := sessions - {sid};
    }

    /** room_size: the number of sessions in the room, 0 for an unknown room. */
    method RoomSize(h: Uuid) returns (n: nat)
      requires Valid()
      ensures h !in rooms ==> n == 0
      ensures n == |Members(sessions, h)|
    {
      RoomIsMembers(sessions, rooms, h);
      n := if h in rooms then |rooms[h]| else 0;
    }

    /** The sessions broadcast_to_room sends to: those whose household is h. */
    method BroadcastRecipients(h: Uuid) returns (r: set<Uuid>)
      requires Valid()
      ensures r == Members(sessions, h)
      ensures forall s :: s in r ==> s in sessions && sessions[s].userId.Some?
    {
      RoomIsMembers(sessions, rooms, h);
      if h !in rooms {
        return {};
      }
      r := set s | s in rooms[h] && s in sessions;
    }
  }
}
