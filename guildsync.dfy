/** guilds_handler.go: the `GuildsHandler` that runs the reconciliation pass
    (SyncGuild), its driver over every stored guild (SyncCluster) and the `sync`
    branch of ParseCommand that guards both with the `syncinprogress` flag. Every
    method is proved equal to the functions of SyncSpec. */
module GuildSync {
  import opened Wrappers
  import opened Discord
  import Text
  import Lookups
  import opened RoomRecords
  import opened GuildRecords
  import opened SyncSpec

  const AlreadyInProgress := "Error syncing cluster: Sync already in progress, please wait until the current one has completed!"
  const NotRegistered := "Error: Supplied guild ID is not registered in the cluster."
  const Canceled := "invalid input, command canceled."
  const ClusterUsage := "cluster-rooms requires you run the command with 'confirm' before proceeding, note that this action may take a long time to complete depending on the size of your cluster"
  const GuildIDUsage := "room-roles requires a guildID argument and that you run the command with 'confirm' before proceeding, note that this action may take a long time to complete depending on the size of your cluster"
  const GuildConfirmUsage := "guild requires you run the command with 'confirm' before proceeding, note that this action may take a long time to complete depending on the size of your cluster"
  const NoFlag := "Expected flag for 'guilds' command, see usage for more info"
  const SyncUsage := "sync requires at least one argument: roomroles | etc "
  const InvalidArgument := "invalid argument specified, see command usage for help"

  /** The IDs of a guild listing, in order: what SyncCluster passes to SyncGuild
      one by one. `Discord.IDs` does the same for the session's roles and
      channels; a stored `GuildRecord` is a different type, and the two share
      no supertype here. */
  function GuildIDs(gs: seq<GuildRecord>): (ids: seq<string>)
    ensures |ids| == |gs| && forall i :: 0 <= i < |gs| ==> ids[i] == gs[i].ID
  {
    seq(|gs|, i requires 0 <= i < |gs| => gs[i].ID)
  }

  /** One more listed guild is one more ID. */
  lemma GuildIDsOfPrefix(gs: seq<GuildRecord>, i: nat)
    requires i < |gs|
    ensures GuildIDs(gs[..i + 1]) == GuildIDs(gs[..i]) + [gs[i].ID]
  {
  }

  /** Both spellings of the confirmation word are accepted. */
  predicate Confirmed(word: string) {
    word == "confirm" || word == "'confirm'"
  }

  /** `guilds sync cluster confirm`. */
  predicate IsClusterSync(command: seq<string>) {
    |command| >= 4 && command[1] == "sync" && command[2] == "cluster" && Confirmed(command[3])
  }

  /** `guilds sync guild <guildID> confirm`. */
  predicate IsGuildSync(command: seq<string>) {
    |command| >= 5 && command[1] == "sync" && command[2] == "guild" && Confirmed(command[4])
  }

  /** Go type `GuildsHandler`, reduced to the room table, the guild table and
      the flag. The ghost logs record what the handler did on the remote side. */
  class GuildsHandler {
    const rooms: Rooms
    const guildmanager: GuildsManager
    var syncinprogress: bool
    /** The guilds SyncGuild was called for, in order. */
    ghost var synced: seq<string>
    /** The channels the passes created on Discord. */
    ghost var created: seq<Creation>
    /** The RepairUser calls the passes made. */
    ghost var repairs: seq<RepairCall>

    ghost predicate Valid()
      reads this, rooms, guildmanager
    {
      rooms.Valid() && guildmanager.Valid()
    }

    /** Init (guilds_handler.go:29-32): the flag starts cleared. */
    constructor (rooms: Rooms, guildmanager: GuildsManager)
      requires rooms.Valid() && guildmanager.Valid()
      ensures Valid() && this.rooms == rooms && this.guildmanager == guildmanager
      ensures !syncinprogress && synced == [] && created == [] && repairs == []
    {
      this.rooms := rooms;
      this.guildmanager := guildmanager;
      syncinprogress := false;
      synced := [];
      created := [];
      repairs := [];
    }

    /** The search of the snapshot for a room holding `channelID`
        (guilds_handler.go:338-349); each match deletes `roomID`. */
    method SearchSnapshot(snapshot: seq<Room>, channelID: string, roomID: string) returns (found: bool, out: Outcome)
      requires rooms.Valid()
      modifies rooms
      ensures rooms.Valid()
      ensures Search(snapshot, channelID, roomID, old(rooms.rooms)) == SearchResult(found, rooms.rooms, out)
    {
      found := false;
      for i := 0 to |snapshot|
        invariant rooms.Valid()
        invariant Search(snapshot[..i], channelID, roomID, old(rooms.rooms)) == SearchResult(found, rooms.rooms, Pass)
      {
        assert snapshot[..i + 1][..i] == snapshot[..i];
        if snapshot[i].ID == channelID {
          var e := rooms.RemoveRoomByID(roomID);
          if e.Fail? {
            assert snapshot[..i + 1] == snapshot[..i] + [snapshot[i]];
            SearchPrefixFailure(snapshot, i, channelID, roomID, old(rooms.rooms));
            return true, e;
          }
          found := true;
        }
      }
      assert snapshot[..|snapshot|] == snapshot;
      return found, Pass;
    }

    /** The channel loop (guilds_handler.go:333-364) for the loop copy `room`. */
    method ScanChannelLoop(rm: Remote, snapshot: seq<Room>, room: Room, chs: seq<Channel>, soFar: seq<Creation>)
      returns (r: Room, matched: bool, out: Outcome)
      requires rooms.Valid()
      modifies rooms
      ensures rooms.Valid()
      ensures ScanChannels(rm, snapshot, room, RoomsState(old(rooms.rooms), soFar), chs)
        == ScanState(r, matched, RoomsState(rooms.rooms, soFar), out)
    {
      r, matched := room, false;
      for i := 0 to |chs|
        invariant rooms.Valid()
        invariant ScanChannels(rm, snapshot, room, RoomsState(old(rooms.rooms), soFar), chs[..i])
          == ScanState(r, matched, RoomsState(rooms.rooms, soFar), Pass)
      {
        assert chs[..i + 1][..i] == chs[..i];
        var channel := chs[i];
        if channel.Name == r.Name {
          matched := true;
          var found, e := SearchSnapshot(snapshot, channel.ID, r.ID);
          if e.Fail? {
            ScanPrefixFailure(rm, snapshot, room, RoomsState(old(rooms.rooms), soFar), chs, i + 1);
            return r, matched, e;
          }
          if !found {
            r := r.(ID := channel.ID);
            rooms.SaveRoomToDB(r);
            var e2 := rm.syncRoom(r.ID);
            if e2.Fail? {
              ScanPrefixFailure(rm, snapshot, room, RoomsState(old(rooms.rooms), soFar), chs, i + 1);
              return r, matched, e2;
            }
          }
        }
      }
      assert chs[..|chs|] == chs;
      return r, matched, Pass;
    }

    /** The recreation branch (guilds_handler.go:367-400). */
    method RecreateRoom(rm: Remote, room: Room, chs: seq<Channel>, soFar: seq<Creation>)
      returns (out: Outcome, created': seq<Creation>)
      requires rooms.Valid()
      modifies rooms
      ensures rooms.Valid()
      ensures Recreate(rm, room, RoomsState(old(rooms.rooms), soFar), Lookups.LastIDNamed(chs, AetherCategory))
        == Step(RoomsState(rooms.rooms, created'), out)
    {
      var parentID := "";
      for i := 0 to |chs|
        invariant parentID == Lookups.LastIDNamed(chs[..i], AetherCategory)
      {
        assert chs[..i + 1][..i] == chs[..i];
        if chs[i].Name == AetherCategory {
          parentID := chs[i].ID;
        }
      }
      assert chs[..|chs|] == chs;
      var createdchannel := rm.createChannel(room.Name);
      if createdchannel.Err? {
        return Fail(createdchannel.msg), soFar;
      }
      var channel := Named(createdchannel.value, room.Name);
      var e := rm.editChannel(channel.ID, parentID);
      if e.Fail? {
        return e, soFar + [Creation(channel, "")];
      }
      created' := soFar + [Creation(channel, parentID)];
      var moved := room.(ID := channel.ID);
      rooms.SaveRoomToDB(moved);
      out := rm.syncRoom(moved.ID);
    }

    /** The body of the room loop for a room of the guild (guilds_handler.go:316-404). */
    method RepairRoomBody(rm: Remote, snapshot: seq<Room>, room: Room, soFar: seq<Creation>)
      returns (out: Outcome, created': seq<Creation>)
      requires rooms.Valid()
      modifies rooms
      ensures rooms.Valid()
      ensures RepairRoom(rm, snapshot, room, RoomsState(old(rooms.rooms), soFar)) == Step(RoomsState(rooms.rooms, created'), out)
    {
      created' := soFar;
      var e := rm.syncRoom(room.ID);
      if e.Pass? {
        return Pass, created';
      }
      if !Text.Contains(e.msg, UnknownChannel) {
        return Fail(SyncRoomError(room, e.msg)), created';
      }
      var channels := GuildChannels(rm, soFar);
      if channels.Err? {
        return Fail(channels.msg), created';
      }
      var r, matched;
      r, matched, out := ScanChannelLoop(rm, snapshot, room, channels.value, soFar);
      if out.Fail? || matched {
        return out, created';
      }
      out, created' := RecreateRoom(rm, r, channels.value, soFar);
    }

    /** The room loop over the snapshot (guilds_handler.go:312-406). */
    method RoomLoop(rm: Remote, guildID: string, snapshot: seq<Room>) returns (out: Outcome, created': seq<Creation>)
      requires rooms.Valid()
      modifies rooms
      ensures rooms.Valid()
      ensures RepairRooms(rm, guildID, snapshot, snapshot, RoomsState(old(rooms.rooms), [])) == Step(RoomsState(rooms.rooms, created'), out)
    {
      created' := [];
      for i := 0 to |snapshot|
        invariant rooms.Valid()
        invariant RepairRooms(rm, guildID, snapshot, snapshot[..i], RoomsState(old(rooms.rooms), [])) == Step(RoomsState(rooms.rooms, created'), Pass)
      {
        assert snapshot[..i + 1][..i] == snapshot[..i];
        var room := snapshot[i];
        if room.GuildID == guildID {
          out, created' := RepairRoomBody(rm, snapshot, room, created');
          if out.Fail? {
            RepairRoomsAbortIsFinal(rm, guildID, snapshot, snapshot, i + 1, RoomsState(old(rooms.rooms), []));
            return out, created';
          }
        }
      }
      assert snapshot[..|snapshot|] == snapshot;
      return Pass, created';
    }

    /** The channel loop of one user's repair (guilds_handler.go:426-435). */
    method UserRepairLoop(rm: Remote, u: User, chs: seq<Channel>) returns (ghost made: seq<RepairCall>, out: Outcome)
      ensures UserRepairs(rm, u, chs) == Repairs(made, out)
    {
      made := [];
      for i := 0 to |chs|
        invariant UserRepairs(rm, u, chs[..i]) == Repairs(made, Pass)
      {
        assert chs[..i + 1][..i] == chs[..i];
        if chs[i].ID == u.RoomID {
          var call := RepairCall(u.ID, chs[i].ID, u.GuildID);
          made := made + [call];
          out := rm.repairUser(call);
          if out.Fail? {
            UserRepairsPrefixFailure(rm, u, chs, i + 1);
            return made, out;
          }
        }
      }
      assert chs[..|chs|] == chs;
      return made, Pass;
    }

    /** The user loop (guilds_handler.go:421-438). */
    method UsersRepairLoop(rm: Remote, guildID: string, users: seq<User>, chs: seq<Channel>) returns (ghost made: seq<RepairCall>, out: Outcome)
      ensures UsersRepairs(rm, guildID, users, chs) == Repairs(made, out)
    {
      made := [];
      for i := 0 to |users|
        invariant UsersRepairs(rm, guildID, users[..i], chs) == Repairs(made, Pass)
      {
        assert users[..i + 1][..i] == users[..i];
        var user := users[i];
        if user.GuildID == guildID {
          if user.RoomID != "" {
            ghost var more;
            more, out := UserRepairLoop(rm, user, chs);
            made := made + more;
            if out.Fail? {
              UsersRepairsPrefixFailure(rm, guildID, users, chs, i + 1);
              return made, out;
            }
          }
        }
      }
      assert users[..|users|] == users;
      return made, Pass;
    }

    /** The member loop (guilds_handler.go:415-440): add the member, then run the
        whole user loop. */
    method MemberLoopRun(rm: Remote, guildID: string, users: seq<User>, chs: seq<Channel>, members: seq<string>)
      returns (ghost made: seq<RepairCall>, out: Outcome)
      requires guildmanager.Valid() && guildID in guildmanager.guilds
      modifies guildmanager
      ensures guildmanager.Valid()
      ensures var g := old(guildmanager.guilds)[guildID];
        var r := MemberLoop(rm, guildID, users, chs, members, g.UserIDs);
        && guildmanager.guilds == old(guildmanager.guilds)[guildID := g.(UserIDs := r.userIDs)]
        && made == r.made && out == r.out
    {
      ghost var g := guildmanager.guilds[guildID];
      made := [];
      for i := 0 to |members|
        invariant guildmanager.Valid()
        invariant var r := MemberLoop(rm, guildID, users, chs, members[..i], g.UserIDs);
          && r.out == Pass && made == r.made
          && guildmanager.guilds == old(guildmanager.guilds)[guildID := g.(UserIDs := r.userIDs)]
      {
        ghost var prev := MemberLoop(rm, guildID, users, chs, members[..i], g.UserIDs);
        MemberLoopStep(rm, guildID, users, chs, members, i, g.UserIDs);
        var e := guildmanager.AddUserToGuild(guildID, members[i]);
        if e.Fail? {
          assert false;
        }
        assert guildmanager.guilds == old(guildmanager.guilds)[guildID := g.(UserIDs := AppendIfAbsent(prev.userIDs, members[i]))];
        ghost var more;
        more, out := UsersRepairLoop(rm, guildID, users, chs);
        made := made + more;
        if out.Fail? {
          MemberLoopPrefixFailure(rm, guildID, users, chs, members, i + 1, g.UserIDs);
          return made, Fail("Error Repairing User: " + out.msg);
        }
      }
      assert members[..|members|] == members;
      return made, Pass;
    }

    /** SyncGuild (guilds_handler.go:242-442). `rm` is what the session answers
        for this guild, `users` the user store's listing. `snapshot` is the room
        listing the pass took at line 256 and worked from. */
    method SyncGuild(guildID: string, rm: Remote, users: seq<User>) returns (err: Outcome, ghost snapshot: seq<Room>)
      requires Valid()
      modifies this, rooms, guildmanager
      ensures Valid()
      ensures syncinprogress == old(syncinprogress)
      ensures synced == old(synced) + [guildID]
      ensures rm.guild.Ok? && guildID in old(guildmanager.guilds) ==> IsRoomListing(snapshot, old(rooms.rooms))
      ensures var r := SyncGuildSpec(rm, users, guildID, old(rooms.rooms), old(guildmanager.guilds), snapshot);
        && err == r.out && rooms.rooms == r.rooms && guildmanager.guilds == r.guilds
        && created == old(created) + r.created && repairs == old(repairs) + r.repairs
    {
      synced := synced + [guildID];
      snapshot := [];
      if rm.guild.Err? {
        return Fail(rm.guild.msg), snapshot;
      }
      var discordguild := rm.guild.value;
      var guild := guildmanager.GetGuildByID(guildID);
      if guild.Err? {
        return Fail(guild.msg), snapshot;
      }
      var list := rooms.GetAllRooms();
      snapshot := list;
      if rm.roles.Err? {
        return Fail(rm.roles.msg), snapshot;
      }
      var roles := rm.roles.value;
      var refreshed := guildmanager.RefreshRecord(guild.value, discordguild, roles);
      if refreshed.Err? {
        return Fail(refreshed.msg), snapshot;
      }
      guildmanager.SaveGuildToDB(refreshed.value);
      err := SyncRefreshed(guildID, rm, users, list);
    }

    /** The part of SyncGuild after the refreshed record is saved
        (guilds_handler.go:312-440); `guild.ID` equals `guildID` there, since the
        record was found under that key. */
    method SyncRefreshed(guildID: string, rm: Remote, users: seq<User>, snapshot: seq<Room>) returns (err: Outcome)
      requires Valid() && rm.guild.Ok? && rm.roles.Ok? && guildID in guildmanager.guilds
      modifies this, rooms, guildmanager
      ensures Valid()
      ensures syncinprogress == old(syncinprogress) && synced == old(synced)
      ensures var r := SyncAfterRefresh(rm, users, guildID, old(rooms.rooms), old(guildmanager.guilds), snapshot);
        && err == r.out && rooms.rooms == r.rooms && guildmanager.guilds == r.guilds
        && created == old(created) + r.created && repairs == old(repairs) + r.repairs
    {
      var out, passCreated := RoomLoop(rm, guildID, snapshot);
      created := created + passCreated;
      if out.Fail? {
        return out;
      }
      var discordguild := rm.guild.value;
      ghost var made;
      made, err := AddRolesAndMembers(rm, guildID, rm.roles.value, users, discordguild.Channels, discordguild.Members);
      repairs := repairs + made;
    }

    /** The role loop (guilds_handler.go:408-413) and the member loop
        (guilds_handler.go:415-440) on the saved record. */
    method AddRolesAndMembers(rm: Remote, guildID: string, roles: seq<Role>, users: seq<User>, chs: seq<Channel>, members: seq<string>)
      returns (ghost made: seq<RepairCall>, err: Outcome)
      requires guildmanager.Valid() && guildID in guildmanager.guilds
      modifies guildmanager
      ensures guildmanager.Valid()
      ensures var g := old(guildmanager.guilds)[guildID];
        var withRoles := g.(RoleIDs := AddAll(g.RoleIDs, IDs(roles)));
        var ml := MemberLoop(rm, guildID, users, chs, members, withRoles.UserIDs);
        && guildmanager.guilds == old(guildmanager.guilds)[guildID := withRoles.(UserIDs := ml.userIDs)]
        && made == ml.made && err == ml.out
    {
      guildmanager.AddRolesToGuild(guildID, IDs(roles));
      made, err := MemberLoopRun(rm, guildID, users, chs, members);
    }

    /** The tables and the logs, as a SyncGuild pass reports them. */
    ghost function Tables(): SyncResult
      reads this, rooms, guildmanager
    {
      SyncResult(Pass, rooms.rooms, guildmanager.guilds, created, repairs)
    }

    /** SyncCluster (guilds_handler.go:219-236): one SyncGuild per stored guild, in
        listing order; their errors are dropped. `remote` gives the session's
        answers for each guild; `snapshots` are the room listings the passes took. */
    method SyncCluster(remote: string -> Remote, users: seq<User>)
      returns (err: Outcome, ghost listing: seq<GuildRecord>, ghost snapshots: seq<seq<Room>>)
      requires Valid()
      modifies this, rooms, guildmanager
      ensures Valid()
      ensures err == Pass && syncinprogress == old(syncinprogress)
      ensures IsGuildListing(listing, old(guildmanager.guilds)) && |snapshots| == |listing|
      ensures synced == old(synced) + GuildIDs(listing)
      ensures Tables() == SyncAllSpec(remote, users, GuildIDs(listing), old(Tables()), snapshots)
      ensures ClusterSnapshots(remote, users, GuildIDs(listing), old(Tables()), snapshots)
    {
      ghost var start := Tables();
      var guilds := guildmanager.GetAllGuilds();
      listing := guilds;
      snapshots := [];
      for i := 0 to |guilds|
        invariant Valid()
        invariant syncinprogress == old(syncinprogress)
        invariant synced == old(synced) + GuildIDs(guilds[..i])
        invariant IsGuildListing(guilds, start.guilds) && |snapshots| == i
        invariant Tables() == SyncAllSpec(remote, users, GuildIDs(guilds[..i]), start, snapshots)
        invariant ClusterSnapshots(remote, users, GuildIDs(guilds[..i]), start, snapshots)
      {
        GuildIDsOfPrefix(guilds, i);
        var snapshot := SyncNext(remote, users, GuildIDs(guilds[..i]), snapshots, start, old(synced), guilds[i].ID);
        snapshots := snapshots + [snapshot];
      }
      assert guilds[..|guilds|] == guilds;
      return Pass, listing, snapshots;
    }

    /** One turn of SyncCluster's loop: the pass for `guildID` after the passes
        for `done`, which took the snapshots `snaps`. */
    method SyncNext(remote: string -> Remote, users: seq<User>, ghost done: seq<string>, ghost snaps: seq<seq<Room>>,
                    ghost start: SyncResult, ghost synced0: seq<string>, guildID: string)
      returns (ghost snapshot: seq<Room>)
      requires Valid() && |snaps| == |done| && guildID in start.guilds && synced == synced0 + done
      requires Tables() == SyncAllSpec(remote, users, done, start, snaps)
      requires ClusterSnapshots(remote, users, done, start, snaps)
      modifies this, rooms, guildmanager
      ensures Valid()
      ensures syncinprogress == old(syncinprogress) && synced == synced0 + (done + [guildID])
      ensures Tables() == SyncAllSpec(remote, users, done + [guildID], start, snaps + [snapshot])
      ensures ClusterSnapshots(remote, users, done + [guildID], start, snaps + [snapshot])
    {
      assert synced + [guildID] == synced0 + (done + [guildID]);
      var _, snap := SyncGuild(guildID, remote(guildID), users);
      snapshot := snap;
      SyncAllSpecStep(remote, users, done, start, snaps, guildID, snapshot);
    }

    /** The `sync cluster <word>` command (guilds_handler.go:110-131): refused while
        a sync runs; otherwise the flag is held for the whole SyncCluster run. */
    method SyncClusterCommand(word: string, remote: string -> Remote, users: seq<User>) returns (replies: seq<string>)
      requires Valid()
      modifies this, rooms, guildmanager
      ensures Valid()
      ensures syncinprogress == old(syncinprogress)
      ensures old(syncinprogress) || !Confirmed(word) ==>
        synced == old(synced) && rooms.rooms == old(rooms.rooms) && guildmanager.guilds == old(guildmanager.guilds)
      ensures Confirmed(word) && old(syncinprogress) ==> replies == [AlreadyInProgress]
      ensures guildmanager.guilds.Keys == old(guildmanager.guilds).Keys
      ensures Confirmed(word) && !old(syncinprogress) ==>
        exists listing, snapshots :: IsGuildListing(listing, old(guildmanager.guilds)) && |snapshots| == |listing|
          && synced == old(synced) + GuildIDs(listing)
          && Tables() == SyncAllSpec(remote, users, GuildIDs(listing), old(Tables()), snapshots)
    {
      if !Confirmed(word) {
        return [Canceled];
      }
      if syncinprogress {
        return [AlreadyInProgress];
      }
      replies := ["Cluster sync started"];
      syncinprogress := true;
      var err, listing, snapshots := SyncCluster(remote, users);
      // SyncCluster fails only when the guild listing does, which this model's store never does
      syncinprogress := false;
      return replies + ["Cluster synced, took: "];
    }

    /** The `sync guild <guildID> <word>` command (guilds_handler.go:150-171): only a
        registered guild is synced, and not while another sync runs. */
    method SyncGuildCommand(guildID: string, word: string, remote: string -> Remote, users: seq<User>) returns (replies: seq<string>)
      requires Valid()
      modifies this, rooms, guildmanager
      ensures Valid()
      ensures syncinprogress == old(syncinprogress)
      ensures old(syncinprogress) || !Confirmed(word) || guildID !in old(guildmanager.guilds) ==>
        synced == old(synced) && rooms.rooms == old(rooms.rooms) && guildmanager.guilds == old(guildmanager.guilds)
      ensures Confirmed(word) && guildID !in old(guildmanager.guilds) ==> replies == [NotRegistered]
      ensures Confirmed(word) && guildID in old(guildmanager.guilds) && old(syncinprogress) ==> replies == [AlreadyInProgress]
      ensures guildmanager.guilds.Keys == old(guildmanager.guilds).Keys
      ensures Confirmed(word) && guildID in old(guildmanager.guilds) && !old(syncinprogress) ==>
        synced == old(synced) + [guildID] && |replies| == 2 && replies[0] == "Guild sync started"
    {
      if !Confirmed(word) {
        return [Canceled];
      }
      var registered := guildmanager.IsGuildRegistered(guildID);
      if !registered {
        return [NotRegistered];
      }
      if syncinprogress {
        return [AlreadyInProgress];
      }
      syncinprogress := true;
      replies := ["Guild sync started"];
      var err, snapshot := SyncGuild(guildID, remote(guildID), users);
      if err.Fail? {
        syncinprogress := false;
        return replies + ["Error syncing guild: " + err.msg];
      }
      syncinprogress := false;
      return replies + ["Guild synced: " + guildID + " Took:"];
    }

    /** The `sync` branch of ParseCommand (guilds_handler.go:81-179). `channelGuild`
        is getGuildID's answer for the message's channel; the replies are the
        messages sent back, the elapsed time left out of the two success replies. */
    method ParseCommand(command: seq<string>, channelGuild: Result<string>, remote: string -> Remote, users: seq<User>)
      returns (replies: seq<string>)
      requires Valid()
      modifies this, rooms, guildmanager
      ensures Valid()
      ensures syncinprogress == old(syncinprogress)
      ensures guildmanager.guilds.Keys == old(guildmanager.guilds).Keys
      ensures old(syncinprogress) || !(channelGuild.Ok? && (IsClusterSync(command) || IsGuildSync(command))) ==>
        synced == old(synced) && rooms.rooms == old(rooms.rooms) && guildmanager.guilds == old(guildmanager.guilds)
      ensures channelGuild.Ok? && IsClusterSync(command) && !old(syncinprogress) ==>
        exists listing :: IsGuildListing(listing, old(guildmanager.guilds)) && synced == old(synced) + GuildIDs(listing)
      ensures channelGuild.Ok? && IsGuildSync(command) && !old(syncinprogress) ==>
        synced == old(synced) + (if command[3] in old(guildmanager.guilds) then [command[3]] else [])
      ensures channelGuild.Ok? && IsClusterSync(command) && old(syncinprogress) ==> replies == [AlreadyInProgress]
      ensures channelGuild.Ok? && IsGuildSync(command) && command[3] in old(guildmanager.guilds) && old(syncinprogress) ==>
        replies == [AlreadyInProgress]
    {
      if channelGuild.Err? {
        return ["Could not retrieve GuildID: " + channelGuild.msg];
      }
      var cmdlen := |command|;
      if cmdlen < 2 {
        return [NoFlag];
      }
      if command[1] != "sync" {
        // the info and cluster reports are not part of this model
        return [];
      }
      if cmdlen <= 2 {
        return [SyncUsage];
      }
      if command[2] == "cluster" {
        if cmdlen < 4 {
          return [ClusterUsage];
        }
        replies := SyncClusterCommand(command[3], remote, users);
        return;
      }
      if command[2] == "guild" {
        if cmdlen < 4 {
          return [GuildIDUsage];
        }
        if cmdlen < 5 {
          return [GuildConfirmUsage];
        }
        replies := SyncGuildCommand(command[3], command[4], remote, users);
        return;
      }
      return [InvalidArgument];
    }
  }

  /** Once a prefix of the snapshot makes the search fail, the rest changes nothing. */
  lemma {:induction false} SearchPrefixFailure(snapshot: seq<Room>, k: nat, channelID: string, roomID: string, store: map<string, Room>)
    requires k < |snapshot|
    requires Search(snapshot[..k + 1], channelID, roomID, store).out.Fail?
    ensures Search(snapshot, channelID, roomID, store) == Search(snapshot[..k + 1], channelID, roomID, store)
    decreases |snapshot|
  {
    if k + 1 < |snapshot| {
      var init := snapshot[..|snapshot| - 1];
      assert init[..k + 1] == snapshot[..k + 1];
      SearchPrefixFailure(init, k, channelID, roomID, store);
    } else {
      assert snapshot[..k + 1] == snapshot;
    }
  }

  /** Once a prefix of the channels makes the scan fail, the rest changes nothing. */
  lemma {:induction false} ScanPrefixFailure(rm: Remote, snapshot: seq<Room>, room: Room, st: RoomsState, chs: seq<Channel>, k: nat)
    requires k <= |chs|
    requires ScanChannels(rm, snapshot, room, st, chs[..k]).out.Fail?
    ensures ScanChannels(rm, snapshot, room, st, chs) == ScanChannels(rm, snapshot, room, st, chs[..k])
    decreases |chs|
  {
    if k < |chs| {
      var init := chs[..|chs| - 1];
      assert init[..k] == chs[..k];
      ScanPrefixFailure(rm, snapshot, room, st, init, k);
    } else {
      assert chs[..k] == chs;
    }
  }

  /** Once a repair fails, the rest of the user's channels are not looked at. */
  lemma {:induction false} UserRepairsPrefixFailure(rm: Remote, u: User, chs: seq<Channel>, k: nat)
    requires k <= |chs|
    requires UserRepairs(rm, u, chs[..k]).out.Fail?
    ensures UserRepairs(rm, u, chs) == UserRepairs(rm, u, chs[..k])
    decreases |chs|
  {
    if k < |chs| {
      var init := chs[..|chs| - 1];
      assert init[..k] == chs[..k];
      UserRepairsPrefixFailure(rm, u, init, k);
    } else {
      assert chs[..k] == chs;
    }
  }

  /** Once a repair fails, the remaining users are not looked at. */
  lemma {:induction false} UsersRepairsPrefixFailure(rm: Remote, guildID: string, users: seq<User>, chs: seq<Channel>, k: nat)
    requires k <= |users|
    requires UsersRepairs(rm, guildID, users[..k], chs).out.Fail?
    ensures UsersRepairs(rm, guildID, users, chs) == UsersRepairs(rm, guildID, users[..k], chs)
    decreases |users|
  {
    if k < |users| {
      var init := users[..|users| - 1];
      assert init[..k] == users[..k];
      UsersRepairsPrefixFailure(rm, guildID, init, chs, k);
    } else {
      assert users[..k] == users;
    }
  }

  /** One more member is one more turn of the member loop. */
  lemma MemberLoopStep(rm: Remote, guildID: string, users: seq<User>, chs: seq<Channel>,
                       members: seq<string>, i: nat, userIDs: seq<string>)
    requires i < |members| && MemberLoop(rm, guildID, users, chs, members[..i], userIDs).out.Pass?
    ensures var prev := MemberLoop(rm, guildID, users, chs, members[..i], userIDs);
      var more := UsersRepairs(rm, guildID, users, chs);
      MemberLoop(rm, guildID, users, chs, members[..i + 1], userIDs)
        == MemberState(AppendIfAbsent(prev.userIDs, members[i]), prev.made + more.made,
                       if more.out.Fail? then Fail("Error Repairing User: " + more.out.msg) else Pass)
  {
    assert members[..i + 1][..i] == members[..i];
  }

  /** Once a repair fails, the remaining members are not added. */
  lemma {:induction false} MemberLoopPrefixFailure(rm: Remote, guildID: string, users: seq<User>, chs: seq<Channel>,
                                                   members: seq<string>, k: nat, userIDs: seq<string>)
    requires k <= |members|
    requires MemberLoop(rm, guildID, users, chs, members[..k], userIDs).out.Fail?
    ensures MemberLoop(rm, guildID, users, chs, members, userIDs) == MemberLoop(rm, guildID, users, chs, members[..k], userIDs)
    decreases |members|
  {
    if k < |members| {
      var init := members[..|members| - 1];
      assert init[..k] == members[..k];
      MemberLoopPrefixFailure(rm, guildID, users, chs, init, k, userIDs);
    } else {
      assert members[..k] == members;
    }
  }
}
