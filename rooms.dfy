/**
 * The server's room table: for each room id, the ids of the participants who
 * joined it and have not left. The server keeps it in memory as a Map from room
 * id to a Set of participant ids; a Set iterates in insertion order, so a room's
 * members are modelled as a sequence in join order without repetitions.
 */
module Rooms {
  const StatusOk: nat := 200
  const StatusBadRequest: nat := 400

  /** No participant id appears twice. */
  ghost predicate NoDuplicates(ids: seq<string>) {
    forall i, j :: 0 <= i < j < |ids| ==> ids[i] != ids[j]
  }

  /** Every room in the table has at least one member, and none twice. */
  ghost predicate ValidRooms(rooms: map<string, seq<string>>) {
    forall room :: room in rooms ==> rooms[room] != [] && NoDuplicates(rooms[room])
  }

  /** Set.add: a new participant goes to the end; one already present changes nothing. */
  function AddMember(ids: seq<string>, p: string): (r: seq<string>)
    ensures forall x :: x in r <==> x in ids || x == p
    ensures p in ids ==> r == ids
    ensures p !in ids ==> r == ids + [p]
    ensures NoDuplicates(ids) ==> NoDuplicates(r)
  {
    if p in ids then ids else ids + [p]
  }

  /** Set.delete: the participant is removed; the others keep their order. */
  function RemoveMember(ids: seq<string>, p: string): (r: seq<string>)
    ensures forall x :: x in r <==> x in ids && x != p
    ensures p !in ids ==> r == ids
    ensures NoDuplicates(ids) ==> NoDuplicates(r)
    ensures |r| <= |ids|
    decreases |ids|
  {
    if ids == [] then []
    else
      var front := RemoveMember(ids[..|ids| - 1], p);
      var last := ids[|ids| - 1];
      assert forall x :: x in ids <==> x in ids[..|ids| - 1] || x == last by {
        assert ids == ids[..|ids| - 1] + [last];
      }
      if last == p then front
      else
        assert NoDuplicates(ids) ==> last !in ids[..|ids| - 1];
        front + [last]
  }

  /**
   * Set.delete keeps insertion order: removing the member at position i of a
   * duplicate-free room leaves the members before it and after it, in order.
   */
  lemma {:induction false} RemoveMemberKeepsOrder(ids: seq<string>, p: string, i: nat)
    requires NoDuplicates(ids) && i < |ids| && ids[i] == p
    ensures RemoveMember(ids, p) == ids[..i] + ids[i + 1..]
    decreases |ids|
  {
    var front := ids[..|ids| - 1];
    var last := ids[|ids| - 1];
    assert ids == front + [last];
    if i == |ids| - 1 {
      assert p !in front;
      assert ids[..i] + ids[i + 1..] == front;
    } else {
      assert last != p;
      assert NoDuplicates(front);
      RemoveMemberKeepsOrder(front, p, i);
      assert front[..i] + front[i + 1..] + [last] == ids[..i] + ids[i + 1..];
    }
  }

  /** The table after a join: the room is created if it is new, and the participant added to it. */
  function Joined(rooms: map<string, seq<string>>, room: string, p: string): (r: map<string, seq<string>>)
    ensures room in r && p in r[room]
    ensures forall x :: x in r[room] <==> x == p || (room in rooms && x in rooms[room])
    ensures forall other :: other != room ==> (other in r <==> other in rooms)
    ensures forall other :: other != room && other in rooms ==> r[other] == rooms[other]
    ensures ValidRooms(rooms) ==> ValidRooms(r)
  {
    rooms[room := AddMember(if room in rooms then rooms[room] else [], p)]
  }

  /**
   * The table after a leave from a room that exists: the participant is
   * removed, and the room is deleted once it has no members left.
   */
  function Left(rooms: map<string, seq<string>>, room: string, p: string): (r: map<string, seq<string>>)
    requires room in rooms
    ensures room in r ==> p !in r[room] && forall x :: x in r[room] <==> x in rooms[room] && x != p
    ensures room !in r <==> forall x :: x in rooms[room] ==> x == p
    ensures forall other :: other != room ==> (other in r <==> other in rooms)
    ensures forall other :: other != room && other in rooms ==> r[other] == rooms[other]
    ensures ValidRooms(rooms) ==> ValidRooms(r)
  {
    var remaining := RemoveMember(rooms[room], p);
    if |remaining| == 0 then
      rooms - {room}
    else
      assert remaining[0] in remaining;
      rooms[room := remaining]
  }

  /** Joining twice is joining once. */
  lemma JoinIsIdempotent(rooms: map<string, seq<string>>, room: string, p: string)
    ensures Joined(Joined(rooms, room, p), room, p) == Joined(rooms, room, p)
  {
    var once := Joined(rooms, room, p);
    assert AddMember(once[room], p) == once[room];
  }

  /** Leaving a room one is not in changes nothing. */
  lemma LeaveByStrangerIsNoop(rooms: map<string, seq<string>>, room: string, p: string)
    requires ValidRooms(rooms) && room in rooms && p !in rooms[room]
    ensures Left(rooms, room, p) == rooms
  {
    assert rooms[room][0] in rooms[room];
    assert rooms[room := rooms[room]] == rooms;
  }

  /** A participant who was not in a room and joins it, then leaves it, leaves the table as it was. */
  lemma JoinThenLeave(rooms: map<string, seq<string>>, room: string, p: string)
    requires ValidRooms(rooms)
    requires room !in rooms || p !in rooms[room]
    ensures Left(Joined(rooms, room, p), room, p) == rooms
  {
    var ids := if room in rooms then rooms[room] else [];
    var joined := Joined(rooms, room, p);
    assert joined[room] == ids + [p];
    assert RemoveMember(ids + [p], p) == ids by {
      assert (ids + [p])[..|ids + [p]| - 1] == ids;
    }
    if room in rooms {
      assert ids != [];
      assert joined[room := ids] == rooms;
    } else {
      assert joined - {room} == rooms;
    }
  }

  class RoomTable {
    /** roomToParticipantIds */
    var rooms: map<string, seq<string>>

    ghost predicate Valid()
      reads this
    {
      ValidRooms(rooms)
    }

    /** The empty table the server starts with. */
    constructor ()
      ensures Valid() && rooms == map[]
    {
      rooms := map[];
    }

    /**
     * POST /join: adds the participant to the room, creating the room if
     * needed, and answers 200 with the room's participants in join order.
     */
    method Join(room: string, p: string) returns (status: nat, participantIds: seq<string>)
      requires Valid()
      modifies this
      ensures Valid()
      ensures rooms == Joined(old(rooms), room, p)
      ensures status == StatusOk && participantIds == rooms[room]
    {
      if room !in rooms {
        rooms := rooms[room := []];
      }
      rooms := rooms[room := AddMember(rooms[room], p)];
      var members := rooms[room];
      participantIds := [];
      var i := 0;
      while i < |members|
        invariant i <= |members|
        invariant participantIds == members[..i]
      {
        participantIds := participantIds + [members[i]];
        i := i + 1;
      }
      status := StatusOk;
    }

    /**
     * POST /leave: answers 400 for a room that does not exist; otherwise removes
     * the participant, deletes the room once it is empty, and answers 200.
     */
    method Leave(room: string, p: string) returns (status: nat)
      requires Valid()
      modifies this
      ensures Valid()
      ensures old(room !in rooms) ==> status == StatusBadRequest && rooms == old(rooms)
      ensures old(room in rooms) ==> status == StatusOk && rooms == Left(old(rooms), room, p)
    {
      if room !in rooms {
        return StatusBadRequest;
      }
      var participantIds := RemoveMember(rooms[room], p);
      rooms := rooms[room := participantIds];
      if |participantIds| == 0 {
        rooms := rooms - {room};
      }
      status := StatusOk;
    }
  }
}
