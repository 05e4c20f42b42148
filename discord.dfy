/**
 * The entities of the chat platform as the bot sees them (the discordgo
 * structs it reads), reduced to the fields the core uses. Every entity is
 * a value; cross references are IDs.
 */
module Discord {
  import opened Wrappers

  /** Errors a lookup or a remote call can produce. */
  datatype Error =
    | NotFound                  // the remote API has no such entity
    | Transport(reason: string) // any other failed remote call
    | Failed(message: string)   // an error built by the helpers themselves (errors.New)
    | CacheUnavailable          // the Redis cache refused a read or a write

  type Lookup<T> = Result<T, Error>

  datatype ChannelType = GuildText | DirectMessage | GuildVoice | GroupDirectMessage | GuildCategory

  /** A bit position of a 64-bit permission mask. */
  type Bit = b: nat | b < 64

  /**
   * A permission mask (the Go `int` bit pattern) as the set of its set bit
   * positions: `a | b` is `a + b` and the test `a & b == b` is `b <= a`.
   */
  type PermSet = set<Bit>

  datatype Role = Role(id: string, name: string, permissions: PermSet, color: int, hoist: bool, mentionable: bool)

  datatype Channel = Channel(id: string, guildID: string, kind: ChannelType)

  /** A guild with its roles and channels in the order the platform lists them. */
  datatype Guild = Guild(id: string, ownerID: string, roles: seq<Role>, channels: seq<Channel>)

  datatype User = User(id: string, username: string, avatar: string)

  /** A member: `roles` holds role IDs, `user` is nil when the platform sent none. */
  datatype Member = Member(guildID: string, joinedAt: string, user: Option<User>, roles: seq<string>)

  datatype Message = Message(id: string, channelID: string, authorID: string)

  // discordgo permission flags: 0x2, 0x8 and 0x800
  const PermissionKickMembers: PermSet := {1}
  const PermissionAdministrator: PermSet := {3}
  const PermissionSendMessages: PermSet := {11}

  /** `a` has every bit of `b` set: the Go test `a & b == b`. */
  predicate Covers(a: PermSet, b: PermSet) {
    b <= a
  }
}
