/** The first-match lookups of util.go (and their copy in guilds.go) over a role
    or channel list that the Discord session returned. Each takes the session's
    answer as a Result, so the session error is passed through as the source does. */
module Lookups {
  import opened Wrappers
  import opened Discord
  import Text

  const EveryoneRoleName := "@everyone"
  const EveryoneNotFound := "Everyone Role ID Not Found"

  /** `xs[i]` is the first entry named `name`. */
  ghost predicate IsFirstNamed(xs: seq<Named>, i: int, name: string) {
    0 <= i < |xs| && xs[i].Name == name && forall j :: 0 <= j < i ==> xs[j].Name != name
  }

  /** `xs[i]` is the first entry with ID `id`. */
  ghost predicate IsFirstWithID(xs: seq<Named>, i: int, id: string) {
    0 <= i < |xs| && xs[i].ID == id && forall j :: 0 <= j < i ==> xs[j].ID != id
  }

  /** Index of the first entry named `name`, or |xs| when there is none. */
  function IndexOfName(xs: seq<Named>, name: string): (i: nat)
    ensures i <= |xs|
    ensures i < |xs| ==> xs[i].Name == name
    ensures forall j :: 0 <= j < i ==> xs[j].Name != name
  {
    if xs == [] then 0 else if xs[0].Name == name then 0 else 1 + IndexOfName(xs[1..], name)
  }

  /** Index of the first entry with ID `id`, or |xs| when there is none. */
  function IndexOfID(xs: seq<Named>, id: string): (i: nat)
    ensures i <= |xs|
    ensures i < |xs| ==> xs[i].ID == id
    ensures forall j :: 0 <= j < i ==> xs[j].ID != id
  {
    if xs == [] then 0 else if xs[0].ID == id then 0 else 1 + IndexOfID(xs[1..], id)
  }

  /** The ID of the LAST entry named `name`, or "" when there is none: what a scan
      without `break` that overwrites a variable on every match leaves behind. */
  function LastIDNamed(xs: seq<Named>, name: string): (id: string)
    ensures (forall j :: 0 <= j < |xs| ==> xs[j].Name != name) ==> id == ""
    ensures (exists j :: 0 <= j < |xs| && xs[j].Name == name) ==>
      exists i :: 0 <= i < |xs| && xs[i].Name == name && xs[i].ID == id &&
        forall j :: i < j < |xs| ==> xs[j].Name != name
  {
    if xs == [] then ""
    else if xs[|xs| - 1].Name == name then xs[|xs| - 1].ID
    else LastIDNamed(xs[..|xs| - 1], name)
  }

  /** getRoleIDByName's answer for a role list: the first role whose name equals
      the title-cased label. */
  function RoleIDByName(roles: seq<Role>, name: string): (r: Result<string>)
    ensures r.Ok? <==> exists i :: 0 <= i < |roles| && roles[i].Name == Text.Title(name)
    ensures r.Ok? ==> exists i :: IsFirstNamed(roles, i, Text.Title(name)) && roles[i].ID == r.value
    ensures r.Err? ==> r.msg == "Role ID Not Found: " + Text.Title(name)
  {
    var t := Text.Title(name);
    var i := IndexOfName(roles, t);
    if i < |roles| then Ok(roles[i].ID) else Err("Role ID Not Found: " + t)
  }

  /** getGuildEveryoneRoleID's answer: the first role named "@everyone". */
  function EveryoneRoleID(roles: seq<Role>): (r: Result<string>)
    ensures r.Ok? <==> exists i :: 0 <= i < |roles| && roles[i].Name == EveryoneRoleName
    ensures r.Ok? ==> exists i :: IsFirstNamed(roles, i, EveryoneRoleName) && roles[i].ID == r.value
    ensures r.Err? ==> r.msg == EveryoneNotFound
  {
    var i := IndexOfName(roles, EveryoneRoleName);
    if i < |roles| then Ok(roles[i].ID) else Err(EveryoneNotFound)
  }

  /** getGuildChannelIDByName's answer: the first channel with exactly that name. */
  function ChannelIDByName(channels: seq<Channel>, name: string): (r: Result<string>)
    ensures r.Ok? <==> exists i :: 0 <= i < |channels| && channels[i].Name == name
    ensures r.Ok? ==> exists i :: IsFirstNamed(channels, i, name) && channels[i].ID == r.value
    ensures r.Err? ==> r.msg == "Channel ID Not Found: " + name
  {
    var i := IndexOfName(channels, name);
    if i < |channels| then Ok(channels[i].ID) else Err("Channel ID Not Found: " + name)
  }

  /** getRoleNameByID's answer: the name of the first role with that ID. */
  function RoleNameByID(roles: seq<Role>, roleID: string, guildID: string): (r: Result<string>)
    ensures r.Ok? <==> exists i :: 0 <= i < |roles| && roles[i].ID == roleID
    ensures r.Ok? ==> exists i :: IsFirstWithID(roles, i, roleID) && roles[i].Name == r.value
    ensures r.Err? ==> r.msg == "Role " + roleID + " not found in guild " + guildID
  {
    var i := IndexOfID(roles, roleID);
    if i < |roles| then Ok(roles[i].Name) else Err("Role " + roleID + " not found in guild " + guildID)
  }

  /** The three well-known labels are their own title case, so each resolves to
      the first role carrying exactly that name. */
  lemma WellKnownLabelsAreTitled()
    ensures Text.Title("Admin") == "Admin"
    ensures Text.Title("Builder") == "Builder"
    ensures Text.Title("Moderator") == "Moderator"
  {
    Text.TitleOfCapitalisedWord("Admin");
    Text.TitleOfCapitalisedWord("Builder");
    Text.TitleOfCapitalisedWord("Moderator");
  }

  /** getGuildEveryoneRoleID (util.go:311-326); GetGuildDiscordEveryoneID
      (guilds.go:353-366) is the same loop. */
  method GetGuildEveryoneRoleID(roles: Result<seq<Role>>) returns (r: Result<string>)
    ensures roles.Err? ==> r == Err(roles.msg)
    ensures roles.Ok? ==> r == EveryoneRoleID(roles.value)
  {
    if roles.Err? {
      return Err(roles.msg);
    }
    var rs := roles.value;
    for i := 0 to |rs|
      invariant forall j :: 0 <= j < i ==> rs[j].Name != EveryoneRoleName
    {
      if rs[i].Name == EveryoneRoleName {
        return Ok(rs[i].ID);
      }
    }
    return Err(EveryoneNotFound);
  }

  /** getGuildChannelIDByName (util.go:329-343). */
  method GetGuildChannelIDByName(channels: Result<seq<Channel>>, name: string) returns (r: Result<string>)
    ensures channels.Err? ==> r == Err(channels.msg)
    ensures channels.Ok? ==> r == ChannelIDByName(channels.value, name)
  {
    if channels.Err? {
      return Err(channels.msg);
    }
    var cs := channels.value;
    for i := 0 to |cs|
      invariant forall j :: 0 <= j < i ==> cs[j].Name != name
    {
      if cs[i].Name == name {
        return Ok(cs[i].ID);
      }
    }
    return Err("Channel ID Not Found: " + name);
  }

  /** getRoleIDByName (util.go:346-361): the label is title-cased before the scan. */
  method GetRoleIDByName(roles: Result<seq<Role>>, name: string) returns (r: Result<string>)
    ensures roles.Err? ==> r == Err(roles.msg)
    ensures roles.Ok? ==> r == RoleIDByName(roles.value, name)
  {
    var title := Text.Title(name);
    if roles.Err? {
      return Err(roles.msg);
    }
    var rs := roles.value;
    for i := 0 to |rs|
      invariant forall j :: 0 <= j < i ==> rs[j].Name != title
    {
      if rs[i].Name == title {
        return Ok(rs[i].ID);
      }
    }
    return Err("Role ID Not Found: " + title);
  }

  /** getRoleNameByID (util.go:364-379). */
  method GetRoleNameByID(roleID: string, guildID: string, roles: Result<seq<Role>>) returns (r: Result<string>)
    ensures roles.Err? ==> r == Err(roles.msg)
    ensures roles.Ok? ==> r == RoleNameByID(roles.value, roleID, guildID)
  {
    if roles.Err? {
      return Err(roles.msg);
    }
    var rs := roles.value;
    for i := 0 to |rs|
      invariant forall j :: 0 <= j < i ==> rs[j].ID != roleID
    {
      if rs[i].ID == roleID {
        return Ok(rs[i].Name);
      }
    }
    return Err("Role " + roleID + " not found in guild " + guildID);
  }
}
