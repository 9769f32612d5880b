/** guilds.go: the GuildRecord and the `GuildsManager` table (storm bucket
    "Guilds", keyed by the record's ID). */
module GuildRecords {
  import opened Wrappers
  import opened Discord
  import Text
  import Slices
  import Lookups

  /** GuildRecord (guilds.go:19-38). */
  datatype GuildRecord = GuildRecord(
    ID: string,
    Name: string,
    Region: string,
    Icon: string,
    AFKChannel: string,
    AFKTimeout: int,
    OwnerID: string,
    RoleIDs: seq<string>,
    UserIDs: seq<string>,
    AdminID: string,
    ModeratorID: string,
    BuilderID: string,
    EveryoneID: string)

  const NoGuildRecordFound := "No guild record found"
  /** The error storm's DeleteStruct returns when no record has the key. */
  const StormNotFound := "not found"

  /** A record as it is first built by RegisterGuild: only ID and Name set. */
  function NewRecord(guildID: string, name: string): (g: GuildRecord)
    ensures g.ID == guildID && g.Name == name && g.RoleIDs == [] && g.UserIDs == []
  {
    GuildRecord(guildID, name, "", "", "", 0, "", [], [], "", "", "", "")
  }

  /** Every stored record sits under its own ID. */
  ghost predicate KeyedByID(m: map<string, GuildRecord>) {
    forall k :: k in m ==> m[k].ID == k
  }

  /** `list` is what a listing of the bucket returns: every stored record exactly
      once, in some order. */
  ghost predicate IsGuildListing(list: seq<GuildRecord>, m: map<string, GuildRecord>) {
    && (forall i :: 0 <= i < |list| ==> list[i].ID in m && m[list[i].ID] == list[i])
    && (forall k :: k in m ==> exists i :: 0 <= i < |list| && list[i].ID == k)
    && (forall i, j :: 0 <= i < j < |list| ==> list[i].ID != list[j].ID)
  }

  /** No value occurs twice. */
  ghost predicate NoDuplicates(s: seq<string>) {
    forall i, j :: 0 <= i < j < |s| ==> s[i] != s[j]
  }

  /** The list after AddRoleToGuild / AddUserToGuild: `x` appended at the end
      unless it is already present. */
  function AppendIfAbsent(s: seq<string>, x: string): (t: seq<string>)
    ensures x in t
    ensures x in s ==> t == s
    ensures x !in s ==> |t| == |s| + 1 && t[|s|] == x
    ensures t[..|s|] == s
    ensures forall y :: y in t ==> y in s || y == x
    ensures NoDuplicates(s) ==> NoDuplicates(t)
  {
    if x in s then s else s + [x]
  }

  /** Adding the same value twice is the same as adding it once. */
  lemma AppendIfAbsentIdempotent(s: seq<string>, x: string)
    ensures AppendIfAbsent(AppendIfAbsent(s, x), x) == AppendIfAbsent(s, x)
  {
  }

  /** The list after adding every element of `xs`, in order, one AppendIfAbsent
      at a time (the role and member loops of RegisterGuild and SyncGuild). */
  function AddAll(s: seq<string>, xs: seq<string>): seq<string>
    decreases |xs|
  {
    if xs == [] then s else AppendIfAbsent(AddAll(s, xs[..|xs| - 1]), xs[|xs| - 1])
  }

  /** Adding a list keeps everything that was there, in place, gains every added
      value, gains nothing else, and keeps a duplicate-free list duplicate-free. */
  lemma {:induction false} AddAllSpec(s: seq<string>, xs: seq<string>)
    ensures |AddAll(s, xs)| >= |s| && AddAll(s, xs)[..|s|] == s
    ensures forall x :: x in xs ==> x in AddAll(s, xs)
    ensures forall y :: y in AddAll(s, xs) ==> y in s || y in xs
    ensures NoDuplicates(s) ==> NoDuplicates(AddAll(s, xs))
    decreases |xs|
  {
    if xs != [] {
      var init := xs[..|xs| - 1];
      AddAllSpec(s, init);
      var t := AddAll(s, init);
      assert AddAll(s, xs) == AppendIfAbsent(t, xs[|xs| - 1]);
      assert AddAll(s, xs)[..|t|] == t;
      assert AddAll(s, xs)[..|s|] == t[..|s|];
      forall x | x in xs
        ensures x in AddAll(s, xs)
      {
        if x != xs[|xs| - 1] {
          var i :| 0 <= i < |xs| && xs[i] == x;
          assert init[i] == x;
        }
      }
      forall y | y in AddAll(s, xs)
        ensures y in s || y in xs
      {
        if y in t && y !in s {
          assert y in init;
          var i :| 0 <= i < |init| && init[i] == y;
          assert xs[i] == y;
        }
      }
    }
  }

  /** Adding values that are all already present changes nothing. */
  lemma {:induction false} AddAllPresent(s: seq<string>, xs: seq<string>)
    requires forall x :: x in xs ==> x in s
    ensures AddAll(s, xs) == s
    decreases |xs|
  {
    if xs != [] {
      assert forall x :: x in xs[..|xs| - 1] ==> x in xs;
      AddAllPresent(s, xs[..|xs| - 1]);
      assert xs[|xs| - 1] in xs;
    }
  }

  /** The four role IDs a record names. */
  datatype RoleField = Admin | Moderator | Builder | Everyone

  /** The record with one role ID field replaced. */
  function WithRoleID(g: GuildRecord, f: RoleField, id: string): (g': GuildRecord)
    ensures g'.ID == g.ID && g'.Name == g.Name && g'.RoleIDs == g.RoleIDs && g'.UserIDs == g.UserIDs
    ensures RoleIDOf(g', f) == id
    ensures forall f' :: f' != f ==> RoleIDOf(g', f') == RoleIDOf(g, f')
  {
    match f
    case Admin => g.(AdminID := id)
    case Moderator => g.(ModeratorID := id)
    case Builder => g.(BuilderID := id)
    case Everyone => g.(EveryoneID := id)
  }

  /** The role ID field `f` of a record. */
  function RoleIDOf(g: GuildRecord, f: RoleField): string {
    match f
    case Admin => g.AdminID
    case Moderator => g.ModeratorID
    case Builder => g.BuilderID
    case Everyone => g.EveryoneID
  }

  /** Setting a field back to the value it holds changes nothing, and a second
      set of the same field overrides the first. */
  lemma WithRoleIDLaws(g: GuildRecord, f: RoleField, a: string, b: string)
    ensures WithRoleID(g, f, RoleIDOf(g, f)) == g
    ensures WithRoleID(WithRoleID(g, f, a), f, b) == WithRoleID(g, f, b)
  {
  }

  /** A record brought up to date from the guild the session reports (the
      overwrite shared by RegisterGuild, guilds.go:387-416, and SyncGuild,
      guilds_handler.go:271-304). The four role IDs are resolved in the order
      Admin, Builder, Moderator, @everyone, and the first that fails is the error. */
  function Refreshed(g: GuildRecord, dg: DiscordGuild, roles: seq<Role>): (r: Result<GuildRecord>)
    ensures r.Ok? <==>
      Lookups.RoleIDByName(roles, "Admin").Ok? && Lookups.RoleIDByName(roles, "Builder").Ok? &&
      Lookups.RoleIDByName(roles, "Moderator").Ok? && Lookups.EveryoneRoleID(roles).Ok?
    ensures Lookups.RoleIDByName(roles, "Admin").Err? ==> r == Err(Lookups.RoleIDByName(roles, "Admin").msg)
    ensures Lookups.RoleIDByName(roles, "Admin").Ok? && Lookups.RoleIDByName(roles, "Builder").Err? ==>
      r == Err(Lookups.RoleIDByName(roles, "Builder").msg)
    ensures (Lookups.RoleIDByName(roles, "Admin").Ok? && Lookups.RoleIDByName(roles, "Builder").Ok? &&
             Lookups.RoleIDByName(roles, "Moderator").Err?) ==>
      r == Err(Lookups.RoleIDByName(roles, "Moderator").msg)
    ensures (Lookups.RoleIDByName(roles, "Admin").Ok? && Lookups.RoleIDByName(roles, "Builder").Ok? &&
             Lookups.RoleIDByName(roles, "Moderator").Ok? && Lookups.EveryoneRoleID(roles).Err?) ==>
      r == Err(Lookups.EveryoneRoleID(roles).msg)
    ensures r.Ok? ==> r.value.ID == g.ID && r.value.Region == g.Region && r.value.RoleIDs == g.RoleIDs && r.value.UserIDs == g.UserIDs
    ensures r.Ok? ==> r.value.Name == dg.Name && r.value.OwnerID == dg.OwnerID
    ensures r.Ok? ==> r.value.AFKChannel == dg.AfkChannelID && r.value.AFKTimeout == dg.AfkTimeout && r.value.Icon == dg.Icon
    ensures r.Ok? ==> r.value.AdminID == Lookups.RoleIDByName(roles, "Admin").value
    ensures r.Ok? ==> r.value.BuilderID == Lookups.RoleIDByName(roles, "Builder").value
    ensures r.Ok? ==> r.value.ModeratorID == Lookups.RoleIDByName(roles, "Moderator").value
    ensures r.Ok? ==> r.value.EveryoneID == Lookups.EveryoneRoleID(roles).value
  {
    var admin := Lookups.RoleIDByName(roles, "Admin");
    var builder := Lookups.RoleIDByName(roles, "Builder");
    var moderator := Lookups.RoleIDByName(roles, "Moderator");
    var everyone := Lookups.EveryoneRoleID(roles);
    if admin.Err? then Err(admin.msg)
    else if builder.Err? then Err(builder.msg)
    else if moderator.Err? then Err(moderator.msg)
    else if everyone.Err? then Err(everyone.msg)
    else Ok(g.(Name := dg.Name, OwnerID := dg.OwnerID, AFKChannel := dg.AfkChannelID,
      AFKTimeout := dg.AfkTimeout, Icon := dg.Icon, AdminID := admin.value, BuilderID := builder.value,
      ModeratorID := moderator.value, EveryoneID := everyone.value))
  }

  /** What RegisterGuild does to the table, given the session's answers for the
      guild and its roles. */
  function Registered(m: map<string, GuildRecord>, guildID: string, dg: Result<DiscordGuild>,
                      roles: Result<seq<Role>>): (r: (Outcome, map<string, GuildRecord>))
    ensures guildID in m ==> r == (Pass, m)
    ensures r.0.Fail? ==> r.1 == m
    ensures guildID !in m && dg.Err? ==> r.0 == Fail(dg.msg)
    ensures guildID !in m && dg.Ok? && roles.Err? ==> r.0 == Fail(roles.msg)
    ensures guildID !in m && dg.Ok? && roles.Ok? && Refreshed(NewRecord(guildID, dg.value.Name), dg.value, roles.value).Err? ==>
      r == (Fail(Refreshed(NewRecord(guildID, dg.value.Name), dg.value, roles.value).msg), m)
    ensures r.0.Pass? ==> guildID in r.1 && r.1.Keys == m.Keys + {guildID}
    ensures r.0.Pass? ==> forall k :: k in m && k != guildID ==> r.1[k] == m[k]
  {
    if guildID in m then (Pass, m)
    else if dg.Err? then (Fail(dg.msg), m)
    else if roles.Err? then (Fail(roles.msg), m)
    else match Refreshed(NewRecord(guildID, dg.value.Name), dg.value, roles.value)
      case Err(e) => (Fail(e), m)
      case Ok(g) => (Pass, m[guildID := g.(RoleIDs := AddAll([], IDs(roles.value)),
                                          UserIDs := AddAll([], dg.value.Members))])
  }

  /** A first registration stores every role and every member of the guild once,
      and the role IDs it resolved are roles of the guild. */
  lemma RegisteredRecord(m: map<string, GuildRecord>, guildID: string, dg: DiscordGuild, roles: seq<Role>)
    requires guildID !in m
    requires Registered(m, guildID, Ok(dg), Ok(roles)).0.Pass?
    ensures var g := Registered(m, guildID, Ok(dg), Ok(roles)).1[guildID];
      && g.ID == guildID
      && (forall i :: 0 <= i < |roles| ==> roles[i].ID in g.RoleIDs)
      && (forall x :: x in g.RoleIDs ==> x in IDs(roles))
      && NoDuplicates(g.RoleIDs)
      && (forall u :: u in dg.Members ==> u in g.UserIDs)
      && (forall x :: x in g.UserIDs ==> x in dg.Members)
      && NoDuplicates(g.UserIDs)
      && g.AdminID in IDs(roles) && g.EveryoneID in IDs(roles)
  {
    var ids := IDs(roles);
    AddAllSpec([], ids);
    AddAllSpec([], dg.Members);
    forall i | 0 <= i < |roles|
      ensures roles[i].ID in AddAll([], ids)
    {
      assert ids[i] == roles[i].ID;
    }
    var g := Refreshed(NewRecord(guildID, dg.Name), dg, roles).value;
    var a :| Lookups.IsFirstNamed(roles, a, Text.Title("Admin")) && roles[a].ID == g.AdminID;
    assert ids[a] == g.AdminID;
    var e :| Lookups.IsFirstNamed(roles, e, Lookups.EveryoneRoleName) && roles[e].ID == g.EveryoneID;
    assert ids[e] == g.EveryoneID;
  }

  /** Go type `GuildsManager`. */
  class GuildsManager {
    var guilds: map<string, GuildRecord>

    ghost predicate Valid()
      reads this
    {
      KeyedByID(guilds)
    }

    constructor ()
      ensures Valid() && guilds == map[]
    {
      guilds := map[];
    }

    /** SaveGuildToDB (guilds.go:42-49): storm's Save upserts by primary key. */
    method SaveGuildToDB(guild: GuildRecord)
      requires Valid()
      modifies this
      ensures Valid()
      ensures guilds == old(guilds)[guild.ID := guild]
    {
      guilds := guilds[guild.ID := guild];
    }

    /** RemoveGuildFromDB (guilds.go:51-58): delete by the struct's ID; fails when
        there is no such record. */
    method RemoveGuildFromDB(guild: GuildRecord) returns (err: Outcome)
      requires Valid()
      modifies this
      ensures Valid()
      ensures guild.ID in old(guilds) ==> err == Pass && guilds == old(guilds) - {guild.ID}
      ensures guild.ID !in old(guilds) ==> err == Fail(StormNotFound) && guilds == old(guilds)
    {
      if guild.ID !in guilds {
        return Fail(StormNotFound);
      }
      guilds := guilds - {guild.ID};
      return Pass;
    }

    /** RemoveGuildByID (guilds.go:60-73): exactly the one key leaves, or the
        lookup error comes back and nothing changes. */
    method RemoveGuildByID(guildID: string) returns (err: Outcome)
      requires Valid()
      modifies this
      ensures Valid()
      ensures guildID in old(guilds) ==> err == Pass && guilds.Keys == old(guilds).Keys - {guildID}
      ensures guildID in old(guilds) ==> forall k :: k in guilds ==> guilds[k] == old(guilds)[k]
      ensures guildID !in old(guilds) ==> err == Fail(NoGuildRecordFound) && guilds == old(guilds)
    {
      var guild := GetGuildByID(guildID);
      if guild.Err? {
        return Fail(guild.msg);
      }
      err := RemoveGuildFromDB(guild.value);
    }

    /** GetGuildByID (guilds.go:75-89). */
    method GetGuildByID(guildID: string) returns (r: Result<GuildRecord>)
      requires Valid()
      ensures guildID in guilds ==> r == Ok(guilds[guildID])
      ensures guildID !in guilds ==> r == Err(NoGuildRecordFound)
    {
      var list := GetAllGuilds();
      for i := 0 to |list|
        invariant forall j :: 0 <= j < i ==> list[j].ID != guildID
      {
        if list[i].ID == guildID {
          return Ok(list[i]);
        }
      }
      return Err(NoGuildRecordFound);
    }

    /** GetGuildByName (guilds.go:91-105): the record must match both name and ID. */
    method GetGuildByName(guildname: string, guildID: string) returns (r: Result<GuildRecord>)
      requires Valid()
      ensures guildID in guilds && guilds[guildID].Name == guildname ==> r == Ok(guilds[guildID])
      ensures !(guildID in guilds && guilds[guildID].Name == guildname) ==> r == Err(NoGuildRecordFound)
    {
      var list := GetAllGuilds();
      for i := 0 to |list|
        invariant forall j :: 0 <= j < i ==> !(list[j].Name == guildname && list[j].ID == guildID)
      {
        if list[i].Name == guildname && list[i].ID == guildID {
          return Ok(list[i]);
        }
      }
      return Err(NoGuildRecordFound);
    }

    /** GetAllGuilds (guilds.go:109-120): every stored record once, in an order
        the model leaves open. */
    method GetAllGuilds() returns (list: seq<GuildRecord>)
      requires Valid()
      ensures IsGuildListing(list, guilds)
    {
      list := [];
      var left := guilds.Keys;
      while left != {}
        invariant left <= guilds.Keys
        invariant forall i :: 0 <= i < |list| ==> list[i].ID in guilds && guilds[list[i].ID] == list[i] && list[i].ID !in left
        invariant forall k :: k in guilds && k !in left ==> exists i :: 0 <= i < |list| && list[i].ID == k
        invariant forall i, j :: 0 <= i < j < |list| ==> list[i].ID != list[j].ID
        decreases left
      {
        var k :| k in left;
        var list' := list + [guilds[k]];
        forall k' | k' in guilds && k' !in left - {k}
          ensures exists i :: 0 <= i < |list'| && list'[i].ID == k'
        {
          if k' == k {
            assert list'[|list|].ID == k';
          } else {
            var i :| 0 <= i < |list| && list[i].ID == k';
            assert list'[i].ID == k';
          }
        }
        list := list';
        left := left - {k};
      }
    }

    /** AddRoleToGuild (guilds.go:124-145): append the role unless present; a
        present role saves nothing. */
    method AddRoleToGuild(guildID: string, roleID: string) returns (err: Outcome)
      requires Valid()
      modifies this
      ensures Valid()
      ensures guildID !in old(guilds) ==> err == Fail(NoGuildRecordFound) && guilds == old(guilds)
      ensures guildID in old(guilds) ==> err == Pass
      ensures guildID in old(guilds) ==>
        guilds == old(guilds)[guildID := old(guilds)[guildID].(RoleIDs := AppendIfAbsent(old(guilds)[guildID].RoleIDs, roleID))]
      ensures guildID in old(guilds) && roleID in old(guilds)[guildID].RoleIDs ==> guilds == old(guilds)
    {
      var guild := GetGuildByID(guildID);
      if guild.Err? {
        return Fail(guild.msg);
      }
      var g := guild.value;
      for i := 0 to |g.RoleIDs|
        invariant forall j :: 0 <= j < i ==> g.RoleIDs[j] != roleID
      {
        if g.RoleIDs[i] == roleID {
          return Pass;
        }
      }
      SaveGuildToDB(g.(RoleIDs := g.RoleIDs + [roleID]));
      return Pass;
    }

    /** RemoveRoleFromGuild (guilds.go:147-161): drop the first occurrence, through
        RemoveStringFromSlice on a copy of the record's list. */
    method RemoveRoleFromGuild(guildID: string, roleID: string) returns (err: Outcome)
      requires Valid()
      modifies this
      ensures Valid()
      ensures guildID !in old(guilds) ==> err == Fail(NoGuildRecordFound) && guilds == old(guilds)
      ensures guildID in old(guilds) ==> err == Pass
      ensures guildID in old(guilds) ==>
        guilds == old(guilds)[guildID := old(guilds)[guildID].(RoleIDs := Slices.RemoveFirst(old(guilds)[guildID].RoleIDs, roleID))]
    {
      var guild := GetGuildByID(guildID);
      if guild.Err? {
        return Fail(guild.msg);
      }
      var g := guild.value;
      var ids := RemoveFromList(g.RoleIDs, roleID);
      SaveGuildToDB(g.(RoleIDs := ids));
      return Pass;
    }

    /** AddUserToGuild (guilds.go:191-212): the same idempotent append on UserIDs. */
    method AddUserToGuild(guildID: string, userID: string) returns (err: Outcome)
      requires Valid()
      modifies this
      ensures Valid()
      ensures guildID !in old(guilds) ==> err == Fail(NoGuildRecordFound) && guilds == old(guilds)
      ensures guildID in old(guilds) ==> err == Pass
      ensures guildID in old(guilds) ==>
        guilds == old(guilds)[guildID := old(guilds)[guildID].(UserIDs := AppendIfAbsent(old(guilds)[guildID].UserIDs, userID))]
      ensures guildID in old(guilds) && userID in old(guilds)[guildID].UserIDs ==> guilds == old(guilds)
    {
      var guild := GetGuildByID(guildID);
      if guild.Err? {
        return Fail(guild.msg);
      }
      var g := guild.value;
      for i := 0 to |g.UserIDs|
        invariant forall j :: 0 <= j < i ==> g.UserIDs[j] != userID
      {
        if g.UserIDs[i] == userID {
          return Pass;
        }
      }
      SaveGuildToDB(g.(UserIDs := g.UserIDs + [userID]));
      return Pass;
    }

    /** RemoveUserFromGuild (guilds.go:214-228). */
    method RemoveUserFromGuild(guildID: string, userID: string) returns (err: Outcome)
      requires Valid()
      modifies this
      ensures Valid()
      ensures guildID !in old(guilds) ==> err == Fail(NoGuildRecordFound) && guilds == old(guilds)
      ensures guildID in old(guilds) ==> err == Pass
      ensures guildID in old(guilds) ==>
        guilds == old(guilds)[guildID := old(guilds)[guildID].(UserIDs := Slices.RemoveFirst(old(guilds)[guildID].UserIDs, userID))]
    {
      var guild := GetGuildByID(guildID);
      if guild.Err? {
        return Fail(guild.msg);
      }
      var g := guild.value;
      var ids := RemoveFromList(g.UserIDs, userID);
      SaveGuildToDB(g.(UserIDs := ids));
      return Pass;
    }

    /** IsGuildRegistered (guilds.go:165-178). */
    method IsGuildRegistered(guildID: string) returns (valid: bool)
      requires Valid()
      ensures valid <==> guildID in guilds
    {
      var list := GetAllGuilds();
      for i := 0 to |list|
        invariant forall j :: 0 <= j < i ==> list[j].ID != guildID
      {
        if list[i].ID == guildID {
          return true;
        }
      }
      return false;
    }

    /** The shared shape of the four Set*ID methods (guilds.go:232-290): look the
        record up, replace one role ID field, save it back. */
    method SetRoleID(guildID: string, f: RoleField, id: string) returns (err: Outcome)
      requires Valid()
      modifies this
      ensures Valid()
      ensures guildID !in old(guilds) ==> err == Fail(NoGuildRecordFound) && guilds == old(guilds)
      ensures guildID in old(guilds) ==> err == Pass
      ensures guildID in old(guilds) ==>
        guilds == old(guilds)[guildID := WithRoleID(old(guilds)[guildID], f, id)]
    {
      var guild := GetGuildByID(guildID);
      if guild.Err? {
        return Fail(guild.msg);
      }
      SaveGuildToDB(WithRoleID(guild.value, f, id));
      return Pass;
    }

    /** SetAdminID (guilds.go:232-245). */
    method SetAdminID(guildID: string, adminID: string) returns (err: Outcome)
      requires Valid()
      modifies this
      ensures Valid()
      ensures guildID !in old(guilds) ==> err == Fail(NoGuildRecordFound) && guilds == old(guilds)
      ensures guildID in old(guilds) ==> err == Pass
      ensures guildID in old(guilds) ==>
        guilds == old(guilds)[guildID := old(guilds)[guildID].(AdminID := adminID)]
    {
      err := SetRoleID(guildID, Admin, adminID);
    }

    /** SetModeratorID (guilds.go:247-260). */
    method SetModeratorID(guildID: string, moderatorID: string) returns (err: Outcome)
      requires Valid()
      modifies this
      ensures Valid()
      ensures guildID !in old(guilds) ==> err == Fail(NoGuildRecordFound) && guilds == old(guilds)
      ensures guildID in old(guilds) ==> err == Pass
      ensures guildID in old(guilds) ==>
        guilds == old(guilds)[guildID := old(guilds)[guildID].(ModeratorID := moderatorID)]
    {
      err := SetRoleID(guildID, Moderator, moderatorID);
    }

    /** SetBuilderID (guilds.go:262-275). */
    method SetBuilderID(guildID: string, builderID: string) returns (err: Outcome)
      requires Valid()
      modifies this
      ensures Valid()
      ensures guildID !in old(guilds) ==> err == Fail(NoGuildRecordFound) && guilds == old(guilds)
      ensures guildID in old(guilds) ==> err == Pass
      ensures guildID in old(guilds) ==>
        guilds == old(guilds)[guildID := old(guilds)[guildID].(BuilderID := builderID)]
    {
      err := SetRoleID(guildID, Builder, builderID);
    }

    /** SetEveryoneID (guilds.go:277-290). */
    method SetEveryoneID(guildID: string, everyoneID: string) returns (err: Outcome)
      requires Valid()
      modifies this
      ensures Valid()
      ensures guildID !in old(guilds) ==> err == Fail(NoGuildRecordFound) && guilds == old(guilds)
      ensures guildID in old(guilds) ==> err == Pass
      ensures guildID in old(guilds) ==>
        guilds == old(guilds)[guildID := old(guilds)[guildID].(EveryoneID := everyoneID)]
    {
      err := SetRoleID(guildID, Everyone, everyoneID);
    }

    /** The shared shape of the four Get*ID methods (guilds.go:295-326). */
    method GetRoleID(guildID: string, f: RoleField) returns (r: Result<string>)
      requires Valid()
      ensures guildID in guilds ==> r == Ok(RoleIDOf(guilds[guildID], f))
      ensures guildID !in guilds ==> r == Err(NoGuildRecordFound)
    {
      var guild := GetGuildByID(guildID);
      if guild.Err? {
        return Err(guild.msg);
      }
      return Ok(RoleIDOf(guild.value, f));
    }

    /** GetGuildAdminID (guilds.go:295-301). */
    method GetGuildAdminID(guildID: string) returns (r: Result<string>)
      requires Valid()
      ensures guildID in guilds ==> r == Ok(guilds[guildID].AdminID)
      ensures guildID !in guilds ==> r == Err(NoGuildRecordFound)
    {
      r := GetRoleID(guildID, Admin);
    }

    /** GetGuildModeratorID (guilds.go:304-310). */
    method GetGuildModeratorID(guildID: string) returns (r: Result<string>)
      requires Valid()
      ensures guildID in guilds ==> r == Ok(guilds[guildID].ModeratorID)
      ensures guildID !in guilds ==> r == Err(NoGuildRecordFound)
    {
      r := GetRoleID(guildID, Moderator);
    }

    /** GetGuildBuilderID (guilds.go:312-318). */
    method GetGuildBuilderID(guildID: string) returns (r: Result<string>)
      requires Valid()
      ensures guildID in guilds ==> r == Ok(guilds[guildID].BuilderID)
      ensures guildID !in guilds ==> r == Err(NoGuildRecordFound)
    {
      r := GetRoleID(guildID, Builder);
    }

    /** GetGuildEveryoneID (guilds.go:320-326). */
    method GetGuildEveryoneID(guildID: string) returns (r: Result<string>)
      requires Valid()
      ensures guildID in guilds ==> r == Ok(guilds[guildID].EveryoneID)
      ensures guildID !in guilds ==> r == Err(NoGuildRecordFound)
    {
      r := GetRoleID(guildID, Everyone);
    }

    /** GetGuildDiscordAdminID (guilds.go:329-335); `roles` is the session's
        answer to GuildRoles for the guild. */
    method GetGuildDiscordAdminID(guildID: string, roles: Result<seq<Role>>) returns (r: Result<string>)
      ensures roles.Err? ==> r == Err(roles.msg)
      ensures roles.Ok? ==> r == Lookups.RoleIDByName(roles.value, "Admin")
    {
      r := Lookups.GetRoleIDByName(roles, "Admin");
    }

    /** GetGuildDiscordModeratorID (guilds.go:337-343). */
    method GetGuildDiscordModeratorID(guildID: string, roles: Result<seq<Role>>) returns (r: Result<string>)
      ensures roles.Err? ==> r == Err(roles.msg)
      ensures roles.Ok? ==> r == Lookups.RoleIDByName(roles.value, "Moderator")
    {
      r := Lookups.GetRoleIDByName(roles, "Moderator");
    }

    /** GetGuildDiscordBuilderID (guilds.go:345-351). */
    method GetGuildDiscordBuilderID(guildID: string, roles: Result<seq<Role>>) returns (r: Result<string>)
      ensures roles.Err? ==> r == Err(roles.msg)
      ensures roles.Ok? ==> r == Lookups.RoleIDByName(roles.value, "Builder")
    {
      r := Lookups.GetRoleIDByName(roles, "Builder");
    }

    /** GetGuildDiscordEveryoneID (guilds.go:353-366). */
    method GetGuildDiscordEveryoneID(guildID: string, roles: Result<seq<Role>>) returns (r: Result<string>)
      ensures roles.Err? ==> r == Err(roles.msg)
      ensures roles.Ok? ==> r == Lookups.EveryoneRoleID(roles.value)
    {
      r := Lookups.GetGuildEveryoneRoleID(roles);
    }

    /** The overwrite of a record's settings and role IDs (guilds.go:387-416,
        guilds_handler.go:271-304), each role lookup going through the
        GetGuildDiscord*ID methods. */
    method RefreshRecord(g: GuildRecord, dg: DiscordGuild, roles: seq<Role>) returns (r: Result<GuildRecord>)
      ensures r == Refreshed(g, dg, roles)
    {
      var guildID := g.ID;
      var record := g;
      record := record.(Name := dg.Name, OwnerID := dg.OwnerID);
      record := record.(AFKChannel := dg.AfkChannelID, AFKTimeout := dg.AfkTimeout, Icon := dg.Icon);
      var adminID := GetGuildDiscordAdminID(guildID, Ok(roles));
      if adminID.Err? {
        return Err(adminID.msg);
      }
      record := record.(AdminID := adminID.value);
      var builderID := GetGuildDiscordBuilderID(guildID, Ok(roles));
      if builderID.Err? {
        return Err(builderID.msg);
      }
      record := record.(BuilderID := builderID.value);
      var moderatorID := GetGuildDiscordModeratorID(guildID, Ok(roles));
      if moderatorID.Err? {
        return Err(moderatorID.msg);
      }
      record := record.(ModeratorID := moderatorID.value);
      var everyoneID := GetGuildDiscordEveryoneID(guildID, Ok(roles));
      if everyoneID.Err? {
        return Err(everyoneID.msg);
      }
      record := record.(EveryoneID := everyoneID.value);
      return Ok(record);
    }

    /** A loop of AddRoleToGuild calls over a stored guild (guilds.go:423-429,
        guilds_handler.go:408-413). No call can fail, since the record exists. */
    method AddRolesToGuild(guildID: string, ids: seq<string>)
      requires Valid() && guildID in guilds
      modifies this
      ensures Valid()
      ensures guilds == old(guilds)[guildID := old(guilds)[guildID].(RoleIDs := AddAll(old(guilds)[guildID].RoleIDs, ids))]
    {
      ghost var g := guilds[guildID];
      for i := 0 to |ids|
        invariant Valid()
        invariant guilds == old(guilds)[guildID := g.(RoleIDs := AddAll(g.RoleIDs, ids[..i]))]
      {
        var e := AddRoleToGuild(guildID, ids[i]);
        if e.Fail? {
          assert false;
        }
        assert ids[..i + 1][..i] == ids[..i];
      }
      assert ids[..|ids|] == ids;
    }

    /** A loop of AddUserToGuild calls over a stored guild (guilds.go:431-436,
        guilds_handler.go:415-419). */
    method AddUsersToGuild(guildID: string, ids: seq<string>)
      requires Valid() && guildID in guilds
      modifies this
      ensures Valid()
      ensures guilds == old(guilds)[guildID := old(guilds)[guildID].(UserIDs := AddAll(old(guilds)[guildID].UserIDs, ids))]
    {
      ghost var g := guilds[guildID];
      for i := 0 to |ids|
        invariant Valid()
        invariant guilds == old(guilds)[guildID := g.(UserIDs := AddAll(g.UserIDs, ids[..i]))]
      {
        var e := AddUserToGuild(guildID, ids[i]);
        if e.Fail? {
          assert false;
        }
        assert ids[..i + 1][..i] == ids[..i];
      }
      assert ids[..|ids|] == ids;
    }

    /** RegisterGuild (guilds.go:370-446). `discordguild` and `roles` are the
        session's answers to Guild and GuildRoles; every GuildRoles call of the
        registration gets the same answer. */
    method RegisterGuild(guildID: string, discordguild: Result<DiscordGuild>, roles: Result<seq<Role>>)
      returns (err: Outcome)
      requires Valid()
      modifies this
      ensures Valid()
      ensures (err, guilds) == Registered(old(guilds), guildID, discordguild, roles)
    {
      var guildRecord := GetGuildByID(guildID);
      if guildRecord.Ok? {
        return Pass;
      }
      assert Text.HasPrefix(guildRecord.msg, NoGuildRecordFound);
      if !Text.Contains(guildRecord.msg, NoGuildRecordFound) {
        // a lookup fails only for a missing record: the store itself never fails
        assert false;
      }
      if discordguild.Err? {
        return Fail(discordguild.msg);
      }
      var dg := discordguild.value;
      if roles.Err? {
        return Fail(roles.msg);
      }
      var record := RefreshRecord(NewRecord(guildID, dg.Name), dg, roles.value);
      if record.Err? {
        return Fail(record.msg);
      }
      SaveWithRolesAndUsers(record.value, IDs(roles.value), dg.Members);
      return Pass;
    }

    /** Lines 418-436 of RegisterGuild: save the record, then add each role and
        each member in turn. */
    method SaveWithRolesAndUsers(g: GuildRecord, roleIDs: seq<string>, userIDs: seq<string>)
      requires Valid()
      modifies this
      ensures Valid()
      ensures guilds == old(guilds)[g.ID := g.(RoleIDs := AddAll(g.RoleIDs, roleIDs), UserIDs := AddAll(g.UserIDs, userIDs))]
    {
      SaveGuildToDB(g);
      AddRolesToGuild(g.ID, roleIDs);
      AddUsersToGuild(g.ID, userIDs);
    }
  }

  /** A fresh copy of `s` in an array, cut down by RemoveStringFromSlice. The copy
      is what the record read from the store owns, so no other slice sees the shift. */
  method RemoveFromList(s: seq<string>, r: string) returns (t: seq<string>)
    ensures t == Slices.RemoveFirst(s, r)
  {
    var a := new string[|s|];
    for i := 0 to |s|
      invariant a[..i] == s[..i]
    {
      a[i] := s[i];
    }
    assert a[..|s|] == s;
    var k := Slices.RemoveStringFromSlice(a, |s|, r);
    t := a[..k];
  }
}
