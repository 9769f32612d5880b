/** The guild reconciliation pass of guilds_handler.go (SyncGuild, lines 242-442)
    as functions of the remote answers and the stored tables. The functions follow
    the source's loops one for one (each loop is a recursion on the last element),
    so that the imperative pass can be proved equal to them, and the properties
    of the pass are proved here. */
module SyncSpec {
  import opened Wrappers
  import opened Discord
  import Text
  import Lookups
  import opened RoomRecords
  import opened GuildRecords

  /** The text SyncRoom's error carries when the room's channel is gone. */
  const UnknownChannel := "Unknown Channel"
  /** The category new channels are moved under. */
  const AetherCategory := "The Aether"

  /** A user record as SyncGuild reads it (the user store is not part of this
      model; the pass is given its listing). */
  datatype User = User(ID: string, GuildID: string, RoomID: string)

  /** One call `RepairUser(userID, s, roomID, guildID)`. */
  datatype RepairCall = RepairCall(userID: string, roomID: string, guildID: string)

  /** A channel the pass created, with the category it was moved under ("" when
      the move failed and the channel stayed where it was created). */
  datatype Creation = Creation(channel: Channel, parentID: string)

  /** What the Discord session answers for the guild being synced. The first
      three are the answers to Guild, GuildRoles and GuildChannels; the others
      are the remote operations, given as oracles:
      `syncRoom(roomID)` is RoomsHandler.SyncRoom, `createChannel(name)` is
      GuildChannelCreate and gives the new channel's ID, `editChannel(id, parent)`
      is the ChannelEditComplex move, `repairUser(call)` is UserHandler.RepairUser. */
  datatype Remote = Remote(
    guild: Result<DiscordGuild>,
    roles: Result<seq<Role>>,
    channels: Result<seq<Channel>>,
    syncRoom: string -> Outcome,
    createChannel: string -> Result<string>,
    editChannel: (string, string) -> Outcome,
    repairUser: RepairCall -> Outcome)

  /** The channels of a creation log, in order. */
  function Channels(cs: seq<Creation>): (chs: seq<Channel>)
    ensures |chs| == |cs| && forall i :: 0 <= i < |cs| ==> chs[i] == cs[i].channel
  {
    seq(|cs|, i requires 0 <= i < |cs| => cs[i].channel)
  }

  /** GuildChannels during the pass: the guild's channels followed by those the
      pass has created so far. */
  function GuildChannels(rm: Remote, created: seq<Creation>): (r: Result<seq<Channel>>)
    ensures rm.channels.Err? <==> r.Err?
    ensures r.Err? ==> r.msg == rm.channels.msg
    ensures r.Ok? ==> rm.channels.Ok? && |r.value| == |rm.channels.value| + |created|
    ensures r.Ok? ==> r.value[..|rm.channels.value|] == rm.channels.value && r.value[|rm.channels.value|..] == Channels(created)
  {
    if rm.channels.Err? then Err(rm.channels.msg) else Ok(rm.channels.value + Channels(created))
  }

  /** The part of the world the room loop changes: the room table and the log of
      channels created on Discord. */
  datatype RoomsState = RoomsState(store: map<string, Room>, created: seq<Creation>)

  /** A state and whether the pass may go on (`Pass`) or returns an error. */
  datatype Step = Step(st: RoomsState, out: Outcome)

  /** The search of the snapshot for a room holding a channel's ID
      (guilds_handler.go:338-349): every match removes the CURRENT room by ID. */
  datatype SearchResult = SearchResult(found: bool, store: map<string, Room>, out: Outcome)

  function Search(snapshot: seq<Room>, channelID: string, roomID: string, store: map<string, Room>): SearchResult
    decreases |snapshot|
  {
    if snapshot == [] then SearchResult(false, store, Pass)
    else
      var prev := Search(snapshot[..|snapshot| - 1], channelID, roomID, store);
      if prev.out.Fail? then prev
      else if snapshot[|snapshot| - 1].ID != channelID then prev
      else match RemovedByID(prev.store, roomID)
        case Ok(m) => SearchResult(true, m, Pass)
        case Err(e) => SearchResult(true, prev.store, Fail(e))
  }

  /** The IDs of a room list. */
  function RoomIDs(rooms: seq<Room>): (ids: seq<string>)
    ensures |ids| == |rooms| && forall i :: 0 <= i < |rooms| ==> ids[i] == rooms[i].ID
  {
    seq(|rooms|, i requires 0 <= i < |rooms| => rooms[i].ID)
  }

  /** No two rooms share an ID (true of every listing of the table). */
  ghost predicate DistinctIDs(rooms: seq<Room>) {
    forall i, j :: 0 <= i < j < |rooms| ==> rooms[i].ID != rooms[j].ID
  }

  /** Over a snapshot with distinct IDs the search removes the current room
      exactly when some snapshot room holds the channel's ID, and fails with the
      table's error when the current room is no longer stored. */
  lemma {:induction false} SearchDistinct(snapshot: seq<Room>, channelID: string, roomID: string, store: map<string, Room>)
    requires DistinctIDs(snapshot)
    ensures var r := Search(snapshot, channelID, roomID, store);
      && r.found == (channelID in RoomIDs(snapshot))
      && (!r.found ==> r.store == store && r.out == Pass)
      && (r.found && roomID in store ==> r.store == store - {roomID} && r.out == Pass)
      && (r.found && roomID !in store ==> r.store == store && r.out == Fail(NoRecordFound))
    decreases |snapshot|
  {
    if snapshot != [] {
      var init := snapshot[..|snapshot| - 1];
      SearchDistinct(init, channelID, roomID, store);
      assert RoomIDs(snapshot) == RoomIDs(init) + [snapshot[|snapshot| - 1].ID];
    }
  }

  /** The loop copy of the room, whether some channel had its name, and the state. */
  datatype ScanState = ScanState(room: Room, matched: bool, st: RoomsState, out: Outcome)

  /** One turn of the channel loop (guilds_handler.go:333-364). A channel with the
      room's name either finds a snapshot room holding its ID (the current record
      is deleted) or rebinds the loop copy to the channel's ID, saves it, and
      syncs it. There is no `break`: the next same-named channel acts too. */
  function ChannelStep(rm: Remote, snapshot: seq<Room>, s: ScanState, ch: Channel): (r: ScanState)
    ensures ch.Name != s.room.Name ==> r == s
    ensures ch.Name == s.room.Name ==> r.matched && r.room.Name == s.room.Name
  {
    if ch.Name != s.room.Name then s
    else
      var sr := Search(snapshot, ch.ID, s.room.ID, s.st.store);
      var st := s.st.(store := sr.store);
      if sr.out.Fail? then ScanState(s.room, true, st, sr.out)
      else if sr.found then ScanState(s.room, true, st, Pass)
      else
        var rebound := s.room.(ID := ch.ID);
        ScanState(rebound, true, st.(store := Saved(st.store, rebound)), rm.syncRoom(ch.ID))
  }

  /** The whole channel loop; an error ends it. */
  function ScanChannels(rm: Remote, snapshot: seq<Room>, room: Room, st: RoomsState, chs: seq<Channel>): (r: ScanState)
    ensures r.room.Name == room.Name
    decreases |chs|
  {
    if chs == [] then ScanState(room, false, st, Pass)
    else
      var prev := ScanChannels(rm, snapshot, room, st, chs[..|chs| - 1]);
      if prev.out.Fail? then prev else ChannelStep(rm, snapshot, prev, chs[|chs| - 1])
  }

  /** The recreation branch (guilds_handler.go:367-400): a channel with the room's
      name is created, moved under `parentID`, the room is saved under the new
      channel's ID and synced. */
  function Recreate(rm: Remote, room: Room, st: RoomsState, parentID: string): (r: Step)
    ensures rm.createChannel(room.Name).Err? ==> r == Step(st, Fail(rm.createChannel(room.Name).msg))
    ensures rm.createChannel(room.Name).Ok? ==>
      var id := rm.createChannel(room.Name).value;
      |r.st.created| == |st.created| + 1 && r.st.created[..|st.created|] == st.created &&
      r.st.created[|st.created|].channel == Named(id, room.Name)
  {
    match rm.createChannel(room.Name)
    case Err(e) => Step(st, Fail(e))
    case Ok(id) =>
      var ch := Named(id, room.Name);
      match rm.editChannel(id, parentID)
      case Fail(e) => Step(st.(created := st.created + [Creation(ch, "")]), Fail(e))
      case Pass =>
        var moved := room.(ID := id);
        Step(RoomsState(Saved(st.store, moved), st.created + [Creation(ch, parentID)]), rm.syncRoom(id))
  }

  /** The message a SyncRoom error other than "Unknown Channel" becomes. */
  function SyncRoomError(room: Room, e: string): string {
    "Error syncing room: " + room.ID + ": " + room.Name + " - " + e
  }

  /** The body of the room loop for a room of the guild (guilds_handler.go:316-404). */
  function RepairRoom(rm: Remote, snapshot: seq<Room>, room: Room, st: RoomsState): (r: Step)
    ensures rm.syncRoom(room.ID).Pass? ==> r == Step(st, Pass)
    ensures rm.syncRoom(room.ID).Fail? && !Text.Contains(rm.syncRoom(room.ID).msg, UnknownChannel) ==>
      r == Step(st, Fail(SyncRoomError(room, rm.syncRoom(room.ID).msg)))
  {
    match rm.syncRoom(room.ID)
    case Pass => Step(st, Pass)
    case Fail(e) =>
      if !Text.Contains(e, UnknownChannel) then Step(st, Fail(SyncRoomError(room, e)))
      else match GuildChannels(rm, st.created)
        case Err(ce) => Step(st, Fail(ce))
        case Ok(chs) =>
          var s := ScanChannels(rm, snapshot, room, st, chs);
          if s.out.Fail? then Step(s.st, s.out)
          else if s.matched then Step(s.st, Pass)
          else Recreate(rm, s.room, s.st, Lookups.LastIDNamed(chs, AetherCategory))
  }

  /** The room loop over the snapshot (guilds_handler.go:312-406): only rooms of
      the guild are probed, and the first error ends the loop. */
  function RepairRooms(rm: Remote, guildID: string, snapshot: seq<Room>, todo: seq<Room>, st: RoomsState): Step
    decreases |todo|
  {
    if todo == [] then Step(st, Pass)
    else
      var prev := RepairRooms(rm, guildID, snapshot, todo[..|todo| - 1], st);
      if prev.out.Fail? then prev
      else if todo[|todo| - 1].GuildID != guildID then prev
      else RepairRoom(rm, snapshot, todo[|todo| - 1], prev.st)
  }

  /** The rooms of a list that belong to the guild, in order. */
  function OfGuild(rooms: seq<Room>, guildID: string): (r: seq<Room>)
    ensures forall x :: x in r <==> x in rooms && x.GuildID == guildID
    decreases |rooms|
  {
    if rooms == [] then []
    else
      var init := OfGuild(rooms[..|rooms| - 1], guildID);
      assert rooms == rooms[..|rooms| - 1] + [rooms[|rooms| - 1]];
      if rooms[|rooms| - 1].GuildID == guildID then init + [rooms[|rooms| - 1]] else init
  }

  /** Rooms of other guilds play no part: the loop over the snapshot does exactly
      what the loop over the guild's own rooms does. */
  lemma {:induction false} RepairRoomsOnlyOwnGuild(rm: Remote, guildID: string, snapshot: seq<Room>, todo: seq<Room>, st: RoomsState)
    ensures RepairRooms(rm, guildID, snapshot, todo, st) == RepairRooms(rm, guildID, snapshot, OfGuild(todo, guildID), st)
    decreases |todo|
  {
    if todo != [] {
      var init := todo[..|todo| - 1];
      RepairRoomsOnlyOwnGuild(rm, guildID, snapshot, init, st);
      var last := todo[|todo| - 1];
      if last.GuildID == guildID {
        var f := OfGuild(init, guildID) + [last];
        assert OfGuild(todo, guildID) == f;
        assert f[..|f| - 1] == OfGuild(init, guildID);
      }
    }
  }

  /** When no room of the list belongs to the guild, the loop changes nothing. */
  lemma RepairRoomsOtherGuilds(rm: Remote, guildID: string, snapshot: seq<Room>, todo: seq<Room>, st: RoomsState)
    requires forall x :: x in todo ==> x.GuildID != guildID
    ensures RepairRooms(rm, guildID, snapshot, todo, st) == Step(st, Pass)
  {
    RepairRoomsOnlyOwnGuild(rm, guildID, snapshot, todo, st);
    assert OfGuild(todo, guildID) == [];
  }

  /** An error ends the room loop: rooms after the failing one are not touched. */
  lemma {:induction false} RepairRoomsAbortIsFinal(rm: Remote, guildID: string, snapshot: seq<Room>, todo: seq<Room>, k: nat, st: RoomsState)
    requires k <= |todo|
    requires RepairRooms(rm, guildID, snapshot, todo[..k], st).out.Fail?
    ensures RepairRooms(rm, guildID, snapshot, todo, st) == RepairRooms(rm, guildID, snapshot, todo[..k], st)
    decreases |todo|
  {
    if k < |todo| {
      var init := todo[..|todo| - 1];
      assert init[..k] == todo[..k];
      RepairRoomsAbortIsFinal(rm, guildID, snapshot, init, k, st);
    } else {
      assert todo[..k] == todo;
    }
  }

  /** The channels with a given name. */
  ghost predicate OnlyMatch(chs: seq<Channel>, name: string, i: int) {
    0 <= i < |chs| && chs[i].Name == name && forall j :: 0 <= j < |chs| && j != i ==> chs[j].Name != name
  }

  /** Channels without the room's name leave the scan as it was. */
  lemma {:induction false} ScanWithoutMatch(rm: Remote, snapshot: seq<Room>, room: Room, st: RoomsState, pre: seq<Channel>, post: seq<Channel>)
    requires forall j :: 0 <= j < |post| ==> post[j].Name != room.Name
    ensures ScanChannels(rm, snapshot, room, st, pre + post) == ScanChannels(rm, snapshot, room, st, pre)
    decreases |post|
  {
    if post != [] {
      var post' := post[..|post| - 1];
      assert (pre + post)[..|pre + post| - 1] == pre + post';
      ScanWithoutMatch(rm, snapshot, room, st, pre, post');
    } else {
      assert pre + post == pre;
    }
  }

  /** With exactly one channel carrying the room's name, the scan is that one
      channel's turn. */
  lemma ScanSingleMatch(rm: Remote, snapshot: seq<Room>, room: Room, st: RoomsState, chs: seq<Channel>, i: int)
    requires OnlyMatch(chs, room.Name, i)
    ensures ScanChannels(rm, snapshot, room, st, chs) == ChannelStep(rm, snapshot, ScanState(room, false, st, Pass), chs[i])
  {
    var pre, post := chs[..i], chs[i + 1..];
    ScanWithoutMatch(rm, snapshot, room, st, [], pre);
    assert [] + pre == pre;
    assert (pre + [chs[i]])[..i] == pre;
    ScanWithoutMatch(rm, snapshot, room, st, pre + [chs[i]], post);
    assert chs == pre + [chs[i]] + post;
  }

  /** No channel at all has the room's name. */
  lemma ScanNoMatch(rm: Remote, snapshot: seq<Room>, room: Room, st: RoomsState, chs: seq<Channel>)
    requires forall j :: 0 <= j < |chs| ==> chs[j].Name != room.Name
    ensures ScanChannels(rm, snapshot, room, st, chs) == ScanState(room, false, st, Pass)
  {
    ScanWithoutMatch(rm, snapshot, room, st, [], chs);
    assert [] + chs == chs;
  }

  /** The channel list a probe of `room` scans, when SyncRoom reports the channel
      unknown and GuildChannels answers. */
  ghost predicate UnknownChannelProbe(rm: Remote, room: Room, st: RoomsState, chs: seq<Channel>) {
    && rm.syncRoom(room.ID).Fail?
    && Text.Contains(rm.syncRoom(room.ID).msg, UnknownChannel)
    && GuildChannels(rm, st.created) == Ok(chs)
  }

  /** Duplicate case: the one channel with the room's name is held by a snapshot
      room, so the current record is deleted and nothing else changes. */
  lemma DuplicateCase(rm: Remote, snapshot: seq<Room>, room: Room, st: RoomsState, chs: seq<Channel>, i: int)
    requires DistinctIDs(snapshot)
    requires UnknownChannelProbe(rm, room, st, chs)
    requires OnlyMatch(chs, room.Name, i) && chs[i].ID in RoomIDs(snapshot)
    requires room.ID in st.store
    ensures RepairRoom(rm, snapshot, room, st) == Step(st.(store := st.store - {room.ID}), Pass)
  {
    ScanSingleMatch(rm, snapshot, room, st, chs, i);
    SearchDistinct(snapshot, chs[i].ID, room.ID, st.store);
  }

  /** Rebind case: the one channel with the room's name is held by no snapshot
      room, so the room is saved under the channel's ID by upsert; no key leaves
      the table, the old ID included. */
  lemma RebindCase(rm: Remote, snapshot: seq<Room>, room: Room, st: RoomsState, chs: seq<Channel>, i: int)
    requires DistinctIDs(snapshot)
    requires UnknownChannelProbe(rm, room, st, chs)
    requires OnlyMatch(chs, room.Name, i) && chs[i].ID !in RoomIDs(snapshot)
    ensures var r := RepairRoom(rm, snapshot, room, st);
      && r.st.store == Saved(st.store, room.(ID := chs[i].ID))
      && r.st.created == st.created
      && r.out == rm.syncRoom(chs[i].ID)
      && (forall k :: k in st.store ==> k in r.st.store)
  {
    ScanSingleMatch(rm, snapshot, room, st, chs, i);
    SearchDistinct(snapshot, chs[i].ID, room.ID, st.store);
  }

  /** Recreate case: no channel has the room's name, so one is created and moved
      under the last channel named "The Aether" ("" when there is none), and the
      room is saved under the new channel's ID. */
  lemma RecreateCase(rm: Remote, snapshot: seq<Room>, room: Room, st: RoomsState, chs: seq<Channel>)
    requires UnknownChannelProbe(rm, room, st, chs)
    requires forall j :: 0 <= j < |chs| ==> chs[j].Name != room.Name
    requires rm.createChannel(room.Name).Ok?
    requires rm.editChannel(rm.createChannel(room.Name).value, Lookups.LastIDNamed(chs, AetherCategory)).Pass?
    ensures var id := rm.createChannel(room.Name).value;
      var parent := Lookups.LastIDNamed(chs, AetherCategory);
      var r := RepairRoom(rm, snapshot, room, st);
      && r.st.store == Saved(st.store, room.(ID := id))
      && r.st.created == st.created + [Creation(Named(id, room.Name), parent)]
      && r.out == rm.syncRoom(id)
      && ((forall j :: 0 <= j < |chs| ==> chs[j].Name != AetherCategory) ==> parent == "")
  {
    ScanNoMatch(rm, snapshot, room, st, chs);
  }

  /** Without `break`, two unbound channels sharing the room's name both rebind
      it: the room is saved under each ID in turn, and the first save stays. */
  lemma TwoSameNamedChannels(rm: Remote, snapshot: seq<Room>, room: Room, st: RoomsState, a: Channel, b: Channel)
    requires DistinctIDs(snapshot)
    requires a.Name == room.Name && b.Name == room.Name
    requires a.ID !in RoomIDs(snapshot) && b.ID !in RoomIDs(snapshot)
    requires rm.syncRoom(a.ID).Pass?
    ensures var r := ScanChannels(rm, snapshot, room, st, [a, b]);
      && r.room == room.(ID := b.ID)
      && r.st.store == Saved(Saved(st.store, room.(ID := a.ID)), room.(ID := b.ID))
      && r.out == rm.syncRoom(b.ID)
  {
    var start := ScanState(room, false, st, Pass);
    assert [a][..0] == [];
    assert ScanChannels(rm, snapshot, room, st, [a]) == ChannelStep(rm, snapshot, start, a);
    SearchDistinct(snapshot, a.ID, room.ID, st.store);
    var first := ChannelStep(rm, snapshot, start, a);
    assert first.room == room.(ID := a.ID) && first.out.Pass?;
    assert first.st.store == Saved(st.store, room.(ID := a.ID));
    assert [a, b][..1] == [a];
    SearchDistinct(snapshot, b.ID, a.ID, first.st.store);
  }

  /** The records of other guilds in `store` are exactly those of `store0`: none
      has gone or changed, and none has appeared. */
  ghost predicate OthersKept(store0: map<string, Room>, store: map<string, Room>, guildID: string) {
    && (forall k :: k in store0 && store0[k].GuildID != guildID ==> k in store && store[k] == store0[k])
    && (forall k :: k in store && store[k].GuildID != guildID ==> k in store0 && store0[k] == store[k])
  }

  /** `id` is not the key of another guild's room in `store0`. */
  ghost predicate OwnKey(store0: map<string, Room>, guildID: string, id: string) {
    id in store0 ==> store0[id].GuildID == guildID
  }

  /** Discord IDs are unique across guilds: the guild's channels, and every
      channel the session creates for it, never carry the ID of another guild's
      room. */
  ghost predicate ChannelIDsOwn(rm: Remote, store0: map<string, Room>, guildID: string) {
    && (rm.channels.Ok? ==> forall c :: c in rm.channels.value ==> OwnKey(store0, guildID, c.ID))
    && (forall name :: rm.createChannel(name).Ok? ==> OwnKey(store0, guildID, rm.createChannel(name).value))
  }

  /** Every channel of a creation log carries an ID that is not another guild's room. */
  ghost predicate CreatedOwn(created: seq<Creation>, store0: map<string, Room>, guildID: string) {
    forall c :: c in created ==> OwnKey(store0, guildID, c.channel.ID)
  }

  /** The search deletes only the current room, which is not another guild's. */
  lemma {:induction false} SearchKeepsOthers(snapshot: seq<Room>, channelID: string, roomID: string,
                                             store: map<string, Room>, store0: map<string, Room>, guildID: string)
    requires OthersKept(store0, store, guildID) && OwnKey(store0, guildID, roomID)
    ensures OthersKept(store0, Search(snapshot, channelID, roomID, store).store, guildID)
    decreases |snapshot|
  {
    if snapshot != [] {
      var init := snapshot[..|snapshot| - 1];
      SearchKeepsOthers(init, channelID, roomID, store, store0, guildID);
      var prev := Search(init, channelID, roomID, store);
      if roomID in prev.store {
        assert prev.store[roomID].GuildID == guildID;
      }
    }
  }

  /** One channel turn writes only rooms of the guild, under IDs that are not
      another guild's. */
  lemma ChannelStepKeepsOthers(rm: Remote, snapshot: seq<Room>, s: ScanState, ch: Channel, store0: map<string, Room>, guildID: string)
    requires OthersKept(store0, s.st.store, guildID)
    requires s.room.GuildID == guildID && OwnKey(store0, guildID, s.room.ID) && OwnKey(store0, guildID, ch.ID)
    ensures var r := ChannelStep(rm, snapshot, s, ch);
      && OthersKept(store0, r.st.store, guildID) && r.st.created == s.st.created
      && r.room.GuildID == guildID && OwnKey(store0, guildID, r.room.ID)
  {
    if ch.Name == s.room.Name {
      SearchKeepsOthers(snapshot, ch.ID, s.room.ID, s.st.store, store0, guildID);
      var sr := Search(snapshot, ch.ID, s.room.ID, s.st.store);
      if ch.ID in sr.store {
        assert sr.store[ch.ID].GuildID == guildID;
      }
    }
  }

  /** The channel loop keeps other guilds' rooms when every channel's ID is the
      guild's own. */
  lemma {:induction false} ScanKeepsOthers(rm: Remote, snapshot: seq<Room>, room: Room, st: RoomsState, chs: seq<Channel>,
                                           store0: map<string, Room>, guildID: string)
    requires OthersKept(store0, st.store, guildID)
    requires room.GuildID == guildID && OwnKey(store0, guildID, room.ID)
    requires forall c :: c in chs ==> OwnKey(store0, guildID, c.ID)
    ensures var r := ScanChannels(rm, snapshot, room, st, chs);
      && OthersKept(store0, r.st.store, guildID) && r.st.created == st.created
      && r.room.GuildID == guildID && OwnKey(store0, guildID, r.room.ID)
    decreases |chs|
  {
    if chs != [] {
      var init := chs[..|chs| - 1];
      assert forall c :: c in init ==> c in chs;
      ScanKeepsOthers(rm, snapshot, room, st, init, store0, guildID);
      var prev := ScanChannels(rm, snapshot, room, st, init);
      if prev.out.Pass? {
        ChannelStepKeepsOthers(rm, snapshot, prev, chs[|chs| - 1], store0, guildID);
      }
    }
  }

  /** Every channel GuildChannels answers during the pass has an ID of the
      guild's own. */
  lemma GuildChannelsOwn(rm: Remote, created: seq<Creation>, store0: map<string, Room>, guildID: string)
    requires ChannelIDsOwn(rm, store0, guildID) && CreatedOwn(created, store0, guildID) && rm.channels.Ok?
    ensures forall c :: c in GuildChannels(rm, created).value ==> OwnKey(store0, guildID, c.ID)
  {
    var chs := GuildChannels(rm, created).value;
    forall c | c in chs
      ensures OwnKey(store0, guildID, c.ID)
    {
      var i :| 0 <= i < |chs| && chs[i] == c;
      if i >= |rm.channels.value| {
        assert created[i - |rm.channels.value|] in created;
      } else {
        assert rm.channels.value[i] in rm.channels.value;
      }
    }
  }

  /** The recreation saves a room of the guild under the new channel's ID, which
      is the guild's own. */
  lemma RecreateKeepsOthers(rm: Remote, room: Room, st: RoomsState, parentID: string, store0: map<string, Room>, guildID: string)
    requires ChannelIDsOwn(rm, store0, guildID) && OthersKept(store0, st.store, guildID) && CreatedOwn(st.created, store0, guildID)
    requires room.GuildID == guildID
    ensures var r := Recreate(rm, room, st, parentID);
      OthersKept(store0, r.st.store, guildID) && CreatedOwn(r.st.created, store0, guildID)
  {
    var made := rm.createChannel(room.Name);
    if made.Ok? {
      assert OwnKey(store0, guildID, made.value);
      if made.value in st.store {
        assert st.store[made.value].GuildID == guildID;
      }
      var r := Recreate(rm, room, st, parentID);
      assert forall c :: c in r.st.created ==> c in st.created || c.channel.ID == made.value;
    }
  }

  /** The probe of one room of the guild keeps other guilds' rooms, and every
      channel it creates has an ID of the guild's own. */
  lemma RepairRoomKeepsOthers(rm: Remote, snapshot: seq<Room>, room: Room, st: RoomsState, store0: map<string, Room>, guildID: string)
    requires ChannelIDsOwn(rm, store0, guildID) && OthersKept(store0, st.store, guildID) && CreatedOwn(st.created, store0, guildID)
    requires room.GuildID == guildID && OwnKey(store0, guildID, room.ID)
    ensures var r := RepairRoom(rm, snapshot, room, st);
      OthersKept(store0, r.st.store, guildID) && CreatedOwn(r.st.created, store0, guildID)
  {
    if rm.syncRoom(room.ID).Fail? && Text.Contains(rm.syncRoom(room.ID).msg, UnknownChannel) && rm.channels.Ok? {
      var chs := GuildChannels(rm, st.created).value;
      GuildChannelsOwn(rm, st.created, store0, guildID);
      ScanKeepsOthers(rm, snapshot, room, st, chs, store0, guildID);
      var s := ScanChannels(rm, snapshot, room, st, chs);
      if s.out.Pass? && !s.matched {
        RecreateKeepsOthers(rm, s.room, s.st, Lookups.LastIDNamed(chs, AetherCategory), store0, guildID);
      }
    }
  }

  /** The room loop neither probes nor changes another guild's room, as long as
      Discord's IDs are unique across guilds: the records of other guilds after
      the loop are exactly those before it. */
  lemma {:induction false} RepairRoomsKeepOthers(rm: Remote, guildID: string, snapshot: seq<Room>, todo: seq<Room>, st: RoomsState,
                                                 store0: map<string, Room>)
    requires ChannelIDsOwn(rm, store0, guildID) && OthersKept(store0, st.store, guildID) && CreatedOwn(st.created, store0, guildID)
    requires forall x :: x in todo && x.GuildID == guildID ==> OwnKey(store0, guildID, x.ID)
    ensures var r := RepairRooms(rm, guildID, snapshot, todo, st);
      OthersKept(store0, r.st.store, guildID) && CreatedOwn(r.st.created, store0, guildID)
    decreases |todo|
  {
    if todo != [] {
      var init := todo[..|todo| - 1];
      assert forall x :: x in init ==> x in todo;
      RepairRoomsKeepOthers(rm, guildID, snapshot, init, st, store0);
      var prev := RepairRooms(rm, guildID, snapshot, init, st);
      var last := todo[|todo| - 1];
      if prev.out.Pass? && last.GuildID == guildID {
        RepairRoomKeepsOthers(rm, snapshot, last, prev.st, store0, guildID);
      }
    }
  }

  /** The RepairUser calls for one user, over the guild's channels
      (guilds_handler.go:426-435): one per channel whose ID is the user's room. */
  datatype Repairs = Repairs(made: seq<RepairCall>, out: Outcome)

  function UserRepairs(rm: Remote, u: User, chs: seq<Channel>): Repairs
    decreases |chs|
  {
    if chs == [] then Repairs([], Pass)
    else
      var prev := UserRepairs(rm, u, chs[..|chs| - 1]);
      var c := chs[|chs| - 1];
      if prev.out.Fail? || c.ID != u.RoomID then prev
      else
        var call := RepairCall(u.ID, c.ID, u.GuildID);
        Repairs(prev.made + [call], rm.repairUser(call))
  }

  /** A user is repaired when it belongs to the guild and sits in some room. */
  predicate Qualifies(u: User, guildID: string) {
    u.GuildID == guildID && u.RoomID != ""
  }

  /** The inner user loop (guilds_handler.go:421-438). */
  function UsersRepairs(rm: Remote, guildID: string, users: seq<User>, chs: seq<Channel>): Repairs
    decreases |users|
  {
    if users == [] then Repairs([], Pass)
    else
      var prev := UsersRepairs(rm, guildID, users[..|users| - 1], chs);
      var u := users[|users| - 1];
      if prev.out.Fail? || !Qualifies(u, guildID) then prev
      else
        var more := UserRepairs(rm, u, chs);
        Repairs(prev.made + more.made, more.out)
  }

  /** For one user, the calls are for the user's own room and occur exactly when
      that room is a channel of the guild. */
  lemma {:induction false} UserRepairsCalls(rm: Remote, u: User, chs: seq<Channel>)
    ensures forall c :: c in UserRepairs(rm, u, chs).made ==> c == RepairCall(u.ID, u.RoomID, u.GuildID)
    ensures UserRepairs(rm, u, chs).out.Pass? ==>
      (RepairCall(u.ID, u.RoomID, u.GuildID) in UserRepairs(rm, u, chs).made <==> u.RoomID in IDs(chs))
    decreases |chs|
  {
    if chs != [] {
      var init := chs[..|chs| - 1];
      UserRepairsCalls(rm, u, init);
      assert IDs(chs) == IDs(init) + [chs[|chs| - 1].ID];
      var prev := UserRepairs(rm, u, init);
      if prev.out.Fail? {
        assert UserRepairs(rm, u, chs).out.Fail?;
      }
    }
  }

  /** After a pass of the user loop that raised no error, exactly the qualifying
      users whose room is a channel of the guild were repaired, each for its
      own room. */
  lemma {:induction false} UsersRepairsCalls(rm: Remote, guildID: string, users: seq<User>, chs: seq<Channel>)
    ensures forall c :: c in UsersRepairs(rm, guildID, users, chs).made ==>
      exists u :: u in users && Qualifies(u, guildID) && c == RepairCall(u.ID, u.RoomID, guildID)
    ensures UsersRepairs(rm, guildID, users, chs).out.Pass? ==>
      forall u :: u in users && Qualifies(u, guildID) && u.RoomID in IDs(chs) ==>
        RepairCall(u.ID, u.RoomID, guildID) in UsersRepairs(rm, guildID, users, chs).made
    decreases |users|
  {
    if users != [] {
      var init := users[..|users| - 1];
      var u := users[|users| - 1];
      UsersRepairsCalls(rm, guildID, init, chs);
      UserRepairsCalls(rm, u, chs);
      var prev := UsersRepairs(rm, guildID, init, chs);
      var r := UsersRepairs(rm, guildID, users, chs);
      assert forall x :: x in init ==> x in users;
      if !prev.out.Fail? && Qualifies(u, guildID) {
        var more := UserRepairs(rm, u, chs);
        assert r.made == prev.made + more.made;
        forall c | c in r.made
          ensures exists x :: x in users && Qualifies(x, guildID) && c == RepairCall(x.ID, x.RoomID, guildID)
        {
          if c in more.made {
            assert u in users;
          }
        }
        if r.out.Pass? {
          forall x | x in users && Qualifies(x, guildID) && x.RoomID in IDs(chs)
            ensures RepairCall(x.ID, x.RoomID, guildID) in r.made
          {
            if x != u {
              assert x in init;
            }
          }
        }
      } else if prev.out.Pass? {
        forall x | x in users && Qualifies(x, guildID) && x.RoomID in IDs(chs)
          ensures RepairCall(x.ID, x.RoomID, guildID) in r.made
        {
          assert x != u;
          assert x in init;
        }
      }
    }
  }

  /** The member loop (guilds_handler.go:415-440): each member is added to the
      guild, then the WHOLE user loop runs again, because it sits inside the
      member loop. */
  datatype MemberState = MemberState(userIDs: seq<string>, made: seq<RepairCall>, out: Outcome)

  function MemberLoop(rm: Remote, guildID: string, users: seq<User>, chs: seq<Channel>, members: seq<string>, userIDs: seq<string>): MemberState
    decreases |members|
  {
    if members == [] then MemberState(userIDs, [], Pass)
    else
      var prev := MemberLoop(rm, guildID, users, chs, members[..|members| - 1], userIDs);
      if prev.out.Fail? then prev
      else
        var added := AppendIfAbsent(prev.userIDs, members[|members| - 1]);
        var more := UsersRepairs(rm, guildID, users, chs);
        var out := if more.out.Fail? then Fail("Error Repairing User: " + more.out.msg) else Pass;
        MemberState(added, prev.made + more.made, out)
  }

  /** `s` repeated `n` times. */
  function Repeat<T>(s: seq<T>, n: nat): (r: seq<T>)
    ensures |r| == |s| * n
  {
    if n == 0 then [] else Repeat(s, n - 1) + s
  }

  /** A member loop without errors adds every member and repeats the user loop's
      calls once per member. */
  lemma {:induction false} MemberLoopRepeats(rm: Remote, guildID: string, users: seq<User>, chs: seq<Channel>, members: seq<string>, userIDs: seq<string>)
    requires MemberLoop(rm, guildID, users, chs, members, userIDs).out.Pass?
    ensures var r := MemberLoop(rm, guildID, users, chs, members, userIDs);
      && r.userIDs == AddAll(userIDs, members)
      && r.made == Repeat(UsersRepairs(rm, guildID, users, chs).made, |members|)
    decreases |members|
  {
    if members != [] {
      MemberLoopRepeats(rm, guildID, users, chs, members[..|members| - 1], userIDs);
    }
  }

  /** What a pass does to the tables and the remote: its error, the room and
      guild tables after it, the channels it created and the repairs it made. */
  datatype SyncResult = SyncResult(
    out: Outcome,
    rooms: map<string, Room>,
    guilds: map<string, GuildRecord>,
    created: seq<Creation>,
    repairs: seq<RepairCall>)

  /** SyncGuild (guilds_handler.go:242-442) with the room snapshot `snapshot`. */
  function SyncGuildSpec(rm: Remote, users: seq<User>, guildID: string, rooms: map<string, Room>,
                         guilds: map<string, GuildRecord>, snapshot: seq<Room>): (r: SyncResult)
    ensures rm.guild.Err? ==> r == SyncResult(Fail(rm.guild.msg), rooms, guilds, [], [])
    ensures rm.guild.Ok? && guildID !in guilds ==> r == SyncResult(Fail(NoGuildRecordFound), rooms, guilds, [], [])
    ensures rm.guild.Ok? && guildID in guilds && rm.roles.Err? ==> r == SyncResult(Fail(rm.roles.msg), rooms, guilds, [], [])
    ensures rm.guild.Ok? && guildID in guilds && rm.roles.Ok? && Refreshed(guilds[guildID], rm.guild.value, rm.roles.value).Err? ==>
      r == SyncResult(Fail(Refreshed(guilds[guildID], rm.guild.value, rm.roles.value).msg), rooms, guilds, [], [])
    ensures r.guilds.Keys == guilds.Keys
    ensures forall k :: k in guilds && k != guildID ==> r.guilds[k] == guilds[k]
  {
    if rm.guild.Err? then SyncResult(Fail(rm.guild.msg), rooms, guilds, [], [])
    else if guildID !in guilds then SyncResult(Fail(NoGuildRecordFound), rooms, guilds, [], [])
    else if rm.roles.Err? then SyncResult(Fail(rm.roles.msg), rooms, guilds, [], [])
    else
      var dg := rm.guild.value;
      match Refreshed(guilds[guildID], dg, rm.roles.value)
      case Err(e) => SyncResult(Fail(e), rooms, guilds, [], [])
      case Ok(g) => SyncAfterRefresh(rm, users, guildID, rooms, guilds[guildID := g], snapshot)
  }

  /** The pass once the refreshed record `guilds[guildID]` is saved: the room
      loop, then the roles, then the member loop. */
  function SyncAfterRefresh(rm: Remote, users: seq<User>, guildID: string, rooms: map<string, Room>,
                            guilds: map<string, GuildRecord>, snapshot: seq<Room>): (r: SyncResult)
    requires rm.guild.Ok? && rm.roles.Ok? && guildID in guilds
    ensures r.guilds.Keys == guilds.Keys
    ensures forall k :: k in guilds && k != guildID ==> r.guilds[k] == guilds[k]
    ensures r.guilds[guildID].ID == guilds[guildID].ID
  {
    var dg := rm.guild.value;
    var g := guilds[guildID];
    var pass := RepairRooms(rm, guildID, snapshot, snapshot, RoomsState(rooms, []));
    if pass.out.Fail? then SyncResult(pass.out, pass.st.store, guilds, pass.st.created, [])
    else
      var withRoles := g.(RoleIDs := AddAll(g.RoleIDs, IDs(rm.roles.value)));
      var ml := MemberLoop(rm, guildID, users, dg.Channels, dg.Members, withRoles.UserIDs);
      SyncResult(ml.out, pass.st.store, guilds[guildID := withRoles.(UserIDs := ml.userIDs)], pass.st.created, ml.made)
  }

  /** A whole pass leaves the rooms of other guilds exactly as they were, as long
      as Discord's IDs are unique across guilds and the snapshot is a listing of
      the room table. */
  lemma SyncKeepsOtherGuildsRooms(rm: Remote, users: seq<User>, guildID: string, rooms: map<string, Room>,
                                  guilds: map<string, GuildRecord>, snapshot: seq<Room>)
    requires rm.guild.Ok? && guildID in guilds ==> IsRoomListing(snapshot, rooms)
    requires ChannelIDsOwn(rm, rooms, guildID)
    ensures OthersKept(rooms, SyncGuildSpec(rm, users, guildID, rooms, guilds, snapshot).rooms, guildID)
  {
    if rm.guild.Ok? && guildID in guilds && rm.roles.Ok? && Refreshed(guilds[guildID], rm.guild.value, rm.roles.value).Ok? {
      var g := Refreshed(guilds[guildID], rm.guild.value, rm.roles.value).value;
      ListedRoomsOwnKeys(snapshot, rooms, guildID);
      SyncAfterRefreshKeepsOthers(rm, users, guildID, rooms, guilds[guildID := g], snapshot);
    }
  }

  /** A room of the guild in a listing of the table is stored under its ID, so
      its ID is not another guild's key. */
  lemma ListedRoomsOwnKeys(snapshot: seq<Room>, rooms: map<string, Room>, guildID: string)
    requires IsRoomListing(snapshot, rooms)
    ensures forall x :: x in snapshot && x.GuildID == guildID ==> OwnKey(rooms, guildID, x.ID)
  {
    forall x | x in snapshot && x.GuildID == guildID
      ensures OwnKey(rooms, guildID, x.ID)
    {
      var i :| 0 <= i < |snapshot| && snapshot[i] == x;
    }
  }

  /** SyncKeepsOtherGuildsRooms for the part of the pass after the refresh. */
  lemma SyncAfterRefreshKeepsOthers(rm: Remote, users: seq<User>, guildID: string, rooms: map<string, Room>,
                                    guilds: map<string, GuildRecord>, snapshot: seq<Room>)
    requires rm.guild.Ok? && rm.roles.Ok? && guildID in guilds
    requires forall x :: x in snapshot && x.GuildID == guildID ==> OwnKey(rooms, guildID, x.ID)
    requires ChannelIDsOwn(rm, rooms, guildID)
    ensures OthersKept(rooms, SyncAfterRefresh(rm, users, guildID, rooms, guilds, snapshot).rooms, guildID)
  {
    RepairRoomsKeepOthers(rm, guildID, snapshot, snapshot, RoomsState(rooms, []), rooms);
  }

  /** SyncCluster (guilds_handler.go:219-236): starting from `start`, the pass for
      each listed guild in turn, with that guild's session answers and the room
      snapshot that pass took; each pass's created channels and repairs are
      appended to the logs, and its error is dropped. */
  function SyncAllSpec(remote: string -> Remote, users: seq<User>, ids: seq<string>, start: SyncResult,
                       snapshots: seq<seq<Room>>): (r: SyncResult)
    requires |snapshots| == |ids|
    ensures r.out == Pass
    ensures r.guilds.Keys == start.guilds.Keys
    ensures forall k :: k in start.guilds && k !in ids ==> r.guilds[k] == start.guilds[k]
    ensures |r.created| >= |start.created| && r.created[..|start.created|] == start.created
    ensures |r.repairs| >= |start.repairs| && r.repairs[..|start.repairs|] == start.repairs
    decreases |ids|
  {
    if ids == [] then start.(out := Pass)
    else
      var n := |ids| - 1;
      var prev := SyncAllSpec(remote, users, ids[..n], start, snapshots[..n]);
      var s := SyncGuildSpec(remote(ids[n]), users, ids[n], prev.rooms, prev.guilds, snapshots[n]);
      SyncResult(Pass, s.rooms, s.guilds, prev.created + s.created, prev.repairs + s.repairs)
  }

  /** The snapshots of a SyncCluster run: each pass whose guild the session
      answers and the table holds listed the room table as the earlier passes
      left it. */
  ghost predicate ClusterSnapshots(remote: string -> Remote, users: seq<User>, ids: seq<string>, start: SyncResult,
                                   snapshots: seq<seq<Room>>)
    requires |snapshots| == |ids|
    decreases |ids|
  {
    ids == [] ||
    var n := |ids| - 1;
    var prev := SyncAllSpec(remote, users, ids[..n], start, snapshots[..n]);
    && ClusterSnapshots(remote, users, ids[..n], start, snapshots[..n])
    && (remote(ids[n]).guild.Ok? && ids[n] in prev.guilds ==> IsRoomListing(snapshots[n], prev.rooms))
  }

  /** One more guild in the listing is one more pass after the others. */
  lemma SyncAllSpecStep(remote: string -> Remote, users: seq<User>, ids: seq<string>, start: SyncResult,
                        snapshots: seq<seq<Room>>, id: string, snapshot: seq<Room>)
    requires |snapshots| == |ids|
    ensures var prev := SyncAllSpec(remote, users, ids, start, snapshots);
      var s := SyncGuildSpec(remote(id), users, id, prev.rooms, prev.guilds, snapshot);
      && SyncAllSpec(remote, users, ids + [id], start, snapshots + [snapshot])
           == SyncResult(Pass, s.rooms, s.guilds, prev.created + s.created, prev.repairs + s.repairs)
      && (ClusterSnapshots(remote, users, ids + [id], start, snapshots + [snapshot]) <==>
            && ClusterSnapshots(remote, users, ids, start, snapshots)
            && (remote(id).guild.Ok? && id in prev.guilds ==> IsRoomListing(snapshot, prev.rooms)))
  {
    assert (ids + [id])[..|ids|] == ids;
    assert (snapshots + [snapshot])[..|ids|] == snapshots;
  }

  /** After a pass without errors, every remote role ID is in the guild's
      RoleIDs and every member in its UserIDs; nothing that was there has gone;
      and the repairs are the user loop's calls once per member. */
  lemma SyncAddsRolesAndMembers(rm: Remote, users: seq<User>, guildID: string, rooms: map<string, Room>,
                                guilds: map<string, GuildRecord>, snapshot: seq<Room>)
    requires SyncGuildSpec(rm, users, guildID, rooms, guilds, snapshot).out.Pass?
    ensures guildID in guilds && rm.guild.Ok? && rm.roles.Ok?
    ensures var r := SyncGuildSpec(rm, users, guildID, rooms, guilds, snapshot);
      var old_ := guilds[guildID];
      var new_ := r.guilds[guildID];
      && (forall x :: x in rm.roles.value ==> x.ID in new_.RoleIDs)
      && (forall m :: m in rm.guild.value.Members ==> m in new_.UserIDs)
      && |new_.RoleIDs| >= |old_.RoleIDs| && new_.RoleIDs[..|old_.RoleIDs|] == old_.RoleIDs
      && |new_.UserIDs| >= |old_.UserIDs| && new_.UserIDs[..|old_.UserIDs|] == old_.UserIDs
      && r.repairs == Repeat(UsersRepairs(rm, guildID, users, rm.guild.value.Channels).made, |rm.guild.value.Members|)
  {
    var g := Refreshed(guilds[guildID], rm.guild.value, rm.roles.value).value;
    assert g.RoleIDs == guilds[guildID].RoleIDs && g.UserIDs == guilds[guildID].UserIDs;
    SyncAfterRefreshAdds(rm, users, guildID, rooms, guilds[guildID := g], snapshot);
  }

  /** SyncAddsRolesAndMembers for the part of the pass after the refresh. */
  lemma SyncAfterRefreshAdds(rm: Remote, users: seq<User>, guildID: string, rooms: map<string, Room>,
                             guilds: map<string, GuildRecord>, snapshot: seq<Room>)
    requires rm.guild.Ok? && rm.roles.Ok? && guildID in guilds
    requires SyncAfterRefresh(rm, users, guildID, rooms, guilds, snapshot).out.Pass?
    ensures var r := SyncAfterRefresh(rm, users, guildID, rooms, guilds, snapshot);
      var old_ := guilds[guildID];
      var new_ := r.guilds[guildID];
      && (forall x :: x in rm.roles.value ==> x.ID in new_.RoleIDs)
      && (forall m :: m in rm.guild.value.Members ==> m in new_.UserIDs)
      && |new_.RoleIDs| >= |old_.RoleIDs| && new_.RoleIDs[..|old_.RoleIDs|] == old_.RoleIDs
      && |new_.UserIDs| >= |old_.UserIDs| && new_.UserIDs[..|old_.UserIDs|] == old_.UserIDs
      && r.repairs == Repeat(UsersRepairs(rm, guildID, users, rm.guild.value.Channels).made, |rm.guild.value.Members|)
  {
    var dg := rm.guild.value;
    var roles := rm.roles.value;
    var g := guilds[guildID];
    var ids := IDs(roles);
    var withRoles := AddAll(g.RoleIDs, ids);
    AddAllSpec(g.RoleIDs, ids);
    MemberLoopRepeats(rm, guildID, users, dg.Channels, dg.Members, g.UserIDs);
    AddAllSpec(g.UserIDs, dg.Members);
    forall x | x in roles
      ensures x.ID in withRoles
    {
      var i :| 0 <= i < |roles| && roles[i] == x;
      assert ids[i] == x.ID;
    }
  }
}
