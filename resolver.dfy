/**
 * Entity resolution: the gateway state (the push-updated snapshot kept by
 * the session) is consulted first; the remote API only when the state has
 * no entry or an entry whose identity fields are empty.
 */
module Resolver {
  import opened Wrappers
  import opened Discord

  /**
   * The gateway state. `guildOrder` is the order of the state's guild list
   * (its guilds' IDs); the maps are the keyed lookups of that state.
   */
  datatype Gateway = Gateway(
    guilds: map<string, Guild>,
    guildOrder: seq<string>,
    channels: map<string, Channel>,
    members: map<(string, string), Member>,      // (guild ID, user ID)
    messages: map<(string, string), Message>)    // (channel ID, message ID)

  /**
   * The remote API as a fixed table of answers: a missing key is answered
   * with NotFound. The last two tables give the answers to the role writes
   * issued by mute-role provisioning.
   */
  datatype Remote = Remote(
    guilds: map<string, Lookup<Guild>>,
    channels: map<string, Lookup<Channel>>,
    members: map<(string, string), Lookup<Member>>,
    messages: map<(string, string), Lookup<Message>>,
    users: map<string, Lookup<User>>,
    roleCreate: map<string, Lookup<Role>>,       // guild ID -> created role
    roleEdit: map<string, Lookup<Role>>)         // role ID -> edited role

  /** One remote request. */
  function Fetch<K, T>(answers: map<K, Lookup<T>>, key: K): Lookup<T> {
    if key in answers then answers[key] else Failure(NotFound)
  }

  predicate UsableGuild(gw: Gateway, guildID: string) {
    guildID in gw.guilds && gw.guilds[guildID].id != ""
  }

  predicate UsableChannel(gw: Gateway, channelID: string) {
    channelID in gw.channels && gw.channels[channelID].id != ""
  }

  predicate UsableMember(gw: Gateway, guildID: string, userID: string) {
    (guildID, userID) in gw.members
    && gw.members[(guildID, userID)].guildID != ""
    && gw.members[(guildID, userID)].joinedAt != ""
  }

  predicate UsableMessage(gw: Gateway, channelID: string, messageID: string) {
    (channelID, messageID) in gw.messages && gw.messages[(channelID, messageID)].id != ""
  }

  function GetGuild(gw: Gateway, api: Remote, guildID: string): Lookup<Guild> {
    if UsableGuild(gw, guildID) then Success(gw.guilds[guildID]) else Fetch(api.guilds, guildID)
  }

  function GetChannel(gw: Gateway, api: Remote, channelID: string): Lookup<Channel> {
    if UsableChannel(gw, channelID) then Success(gw.channels[channelID]) else Fetch(api.channels, channelID)
  }

  function GetGuildMember(gw: Gateway, api: Remote, guildID: string, userID: string): Lookup<Member> {
    if UsableMember(gw, guildID, userID) then Success(gw.members[(guildID, userID)])
    else Fetch(api.members, (guildID, userID))
  }

  /** A usable state entry is returned as it is, whatever the API would answer. */
  lemma GetGuildStateFirst(gw: Gateway, api: Remote, api': Remote, guildID: string)
    requires UsableGuild(gw, guildID)
    ensures GetGuild(gw, api, guildID) == GetGuild(gw, api', guildID) == Success(gw.guilds[guildID])
  {
  }

  /** A missing or empty state entry plays no part: the API's answer is returned, error included. */
  lemma GetGuildFallsBack(gw: Gateway, gw': Gateway, api: Remote, guildID: string)
    requires !UsableGuild(gw, guildID) && !UsableGuild(gw', guildID)
    ensures GetGuild(gw, api, guildID) == GetGuild(gw', api, guildID) == Fetch(api.guilds, guildID)
  {
  }

  lemma GetChannelStateFirst(gw: Gateway, api: Remote, api': Remote, channelID: string)
    requires UsableChannel(gw, channelID)
    ensures GetChannel(gw, api, channelID) == GetChannel(gw, api', channelID) == Success(gw.channels[channelID])
  {
  }

  lemma GetChannelFallsBack(gw: Gateway, gw': Gateway, api: Remote, channelID: string)
    requires !UsableChannel(gw, channelID) && !UsableChannel(gw', channelID)
    ensures GetChannel(gw, api, channelID) == GetChannel(gw', api, channelID) == Fetch(api.channels, channelID)
  {
  }

  /** A member entry with an empty guild ID or join date counts as missing. */
  lemma GetGuildMemberStateFirst(gw: Gateway, api: Remote, api': Remote, guildID: string, userID: string)
    requires UsableMember(gw, guildID, userID)
    ensures GetGuildMember(gw, api, guildID, userID) == GetGuildMember(gw, api', guildID, userID)
    ensures GetGuildMember(gw, api, guildID, userID) == Success(gw.members[(guildID, userID)])
  {
  }

  lemma GetGuildMemberFallsBack(gw: Gateway, gw': Gateway, api: Remote, guildID: string, userID: string)
    requires !UsableMember(gw, guildID, userID) && !UsableMember(gw', guildID, userID)
    ensures GetGuildMember(gw, api, guildID, userID) == GetGuildMember(gw', api, guildID, userID)
    ensures GetGuildMember(gw, api, guildID, userID) == Fetch(api.members, (guildID, userID))
  {
  }
}
