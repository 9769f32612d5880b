/** The values the Discord session hands back, reduced to the fields the core reads. */
module Discord {

  /** A role or a channel: both are looked up by ID and by display name. */
  datatype Named = Named(ID: string, Name: string)

  type Role = Named
  type Channel = Named

  /** What `s.Guild(guildID)` returns: the guild's settings, its members' user IDs
      and its channels. */
  datatype DiscordGuild = DiscordGuild(
    Name: string,
    OwnerID: string,
    AfkChannelID: string,
    AfkTimeout: int,
    Icon: string,
    Members: seq<string>,
    Channels: seq<Channel>)

  /** The IDs of a role list, in order. */
  function IDs(xs: seq<Named>): (ids: seq<string>)
    ensures |ids| == |xs| && forall i :: 0 <= i < |xs| ==> ids[i] == xs[i].ID
  {
    seq(|xs|, i requires 0 <= i < |xs| => xs[i].ID)
  }
}
