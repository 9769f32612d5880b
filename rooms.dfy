/** rooms.go: the Room record and the `Rooms` table (storm bucket "Rooms",
    keyed by the record's ID). */
module RoomRecords {
  import opened Wrappers

  /** One directional link of a room: the neighbouring room's ID and the items
      needed to pass. */
  datatype Exit = Exit(ID: string, ItemIDs: seq<string>)

  /** Room (rooms.go:13-55). `GuildID` is read by SyncGuild (guilds_handler.go:315)
      but is not declared in rooms.go; it is an attribute of the room here. */
  datatype Room = Room(
    ID: string,
    GuildID: string,
    Name: string,
    ParentID: string,
    RoleID: string,
    Up: Exit,
    Down: Exit,
    North: Exit,
    NorthEast: Exit,
    East: Exit,
    SouthEast: Exit,
    South: Exit,
    SouthWest: Exit,
    West: Exit,
    NorthWest: Exit)

  const NoRecordFound := "No record found"
  /** The error storm's DeleteStruct returns when no record has the key. */
  const StormNotFound := "not found"

  /** Every stored room sits under its own ID. */
  ghost predicate KeyedByID(m: map<string, Room>) {
    forall k :: k in m ==> m[k].ID == k
  }

  /** `list` is what a listing of the bucket returns: every stored room exactly
      once, in some order. */
  ghost predicate IsRoomListing(list: seq<Room>, m: map<string, Room>) {
    && (forall i :: 0 <= i < |list| ==> list[i].ID in m && m[list[i].ID] == list[i])
    && (forall k :: k in m ==> exists i :: 0 <= i < |list| && list[i].ID == k)
    && (forall i, j :: 0 <= i < j < |list| ==> list[i].ID != list[j].ID)
  }

  /** The table after SaveRoomToDB: an upsert under the room's ID. */
  function Saved(m: map<string, Room>, room: Room): (m': map<string, Room>)
    ensures room.ID in m' && m'[room.ID] == room
    ensures forall k :: k != room.ID ==> (k in m' <==> k in m) && (k in m ==> m'[k] == m[k])
    ensures KeyedByID(m) ==> KeyedByID(m')
  {
    m[room.ID := room]
  }

  /** The table after RemoveRoomByID: the key is dropped, or the lookup fails. */
  function RemovedByID(m: map<string, Room>, roomID: string): (r: Result<map<string, Room>>)
    ensures roomID !in m <==> r == Err(NoRecordFound)
    ensures r.Ok? ==> r.value.Keys == m.Keys - {roomID}
    ensures r.Ok? ==> forall k :: k in r.value ==> r.value[k] == m[k]
  {
    if roomID in m then Ok(m - {roomID}) else Err(NoRecordFound)
  }

  /** Removing an ID that a save just wrote undoes the save on that key only when
      the key was absent before: the table returns to its old contents. */
  lemma RemoveUndoesFreshSave(m: map<string, Room>, room: Room)
    requires room.ID !in m
    ensures RemovedByID(Saved(m, room), room.ID) == Ok(m)
  {
    assert Saved(m, room) - {room.ID} == m;
  }

  /** Go type `Rooms`. */
  class Rooms {
    var rooms: map<string, Room>

    ghost predicate Valid()
      reads this
    {
      KeyedByID(rooms)
    }

    constructor ()
      ensures Valid() && rooms == map[]
    {
      rooms := map[];
    }

    /** SaveRoomToDB (rooms.go:59-66): storm's Save upserts by primary key. */
    method SaveRoomToDB(room: Room)
      requires Valid()
      modifies this
      ensures Valid()
      ensures rooms == Saved(old(rooms), room)
    {
      rooms := rooms[room.ID := room];
    }

    /** RemoveRoomFromDB (rooms.go:68-75): storm's DeleteStruct deletes the record
        with the struct's ID, and fails when there is none. */
    method RemoveRoomFromDB(room: Room) returns (err: Outcome)
      requires Valid()
      modifies this
      ensures Valid()
      ensures room.ID in old(rooms) ==> err == Pass && rooms == old(rooms) - {room.ID}
      ensures room.ID !in old(rooms) ==> err == Fail(StormNotFound) && rooms == old(rooms)
    {
      if room.ID !in rooms {
        return Fail(StormNotFound);
      }
      rooms := rooms - {room.ID};
      return Pass;
    }

    /** RemoveRoomByID (rooms.go:77-90): look the room up, then delete it. */
    method RemoveRoomByID(roomID: string) returns (err: Outcome)
      requires Valid()
      modifies this
      ensures Valid()
      ensures match RemovedByID(old(rooms), roomID)
        case Ok(m) => err == Pass && rooms == m
        case Err(e) => err == Fail(e) && rooms == old(rooms)
    {
      var room := GetRoomByID(roomID);
      if room.Err? {
        return Fail(room.msg);
      }
      err := RemoveRoomFromDB(room.value);
    }

    /** GetRoomByID (rooms.go:92-106): a scan of the listing for the ID. */
    method GetRoomByID(roomID: string) returns (r: Result<Room>)
      requires Valid()
      ensures roomID in rooms ==> r == Ok(rooms[roomID])
      ensures roomID !in rooms ==> r == Err(NoRecordFound)
    {
      var list := GetAllRooms();
      for i := 0 to |list|
        invariant forall j :: 0 <= j < i ==> list[j].ID != roomID
      {
        if list[i].ID == roomID {
          return Ok(list[i]);
        }
      }
      return Err(NoRecordFound);
    }

    /** GetAllRooms (rooms.go:110-121): every stored room once. storm lists in key
        order; the order is left open here. */
    method GetAllRooms() returns (list: seq<Room>)
      requires Valid()
      ensures IsRoomListing(list, rooms)
    {
      list := [];
      var left := rooms.Keys;
      while left != {}
        invariant left <= rooms.Keys
        invariant forall i :: 0 <= i < |list| ==> list[i].ID in rooms && rooms[list[i].ID] == list[i] && list[i].ID !in left
        invariant forall k :: k in rooms && k !in left ==> exists i :: 0 <= i < |list| && list[i].ID == k
        invariant forall i, j :: 0 <= i < j < |list| ==> list[i].ID != list[j].ID
        decreases left
      {
        var k :| k in left;
        var list' := list + [rooms[k]];
        forall k' | k' in rooms && k' !in left - {k}
          ensures exists i :: 0 <= i < |list'| && list'[i].ID == k'
        {
          if k' == k {
            assert list'[|list|].ID == k';
          } else {
            var i :| 0 <= i < |list| && list[i].ID == k';
            assert list'[i].ID == k';
          }
        }
        list := list';
        left := left - {k};
      }
    }
  }
}
