/**
 * The lookups and writes that go through the session: a message lookup that
 * stores what it fetched in the gateway state, the user lookup backed by a
 * shared cache with a ten-minute expiry, and provisioning of a guild's mute
 * role. The session records every request it sends to the API and every
 * cache write in `log`.
 */
module Sessions {
  import opened Wrappers
  import opened Discord
  import opened Resolver
  import opened Mentions

  /** Seconds a fetched user stays in the cache. */
  const UserCacheTtl: int := 600
  const UserCacheKeyPrefix: string := "robyul2-discord:api:user:"

  function UserCacheKey(userID: string): string {
    UserCacheKeyPrefix + userID
  }

  /** Distinct users never share a cache entry. */
  lemma UserCacheKeyInjective(a: string, b: string)
    ensures UserCacheKey(a) == UserCacheKey(b) ==> a == b
  {
    if UserCacheKey(a) == UserCacheKey(b) {
      assert a == UserCacheKey(a)[|UserCacheKeyPrefix|..];
      assert b == UserCacheKey(b)[|UserCacheKeyPrefix|..];
    }
  }

  /** A cache entry: the stored user and the time (in seconds) it expires at. */
  datatype CachedUser = CachedUser(user: User, expiresAt: int)

  type UserCache = map<string, CachedUser>

  /** A cache read at time `now`: a hit needs a reachable cache and a live entry. */
  function CacheGet(cache: UserCache, up: bool, key: string, now: int): Option<User> {
    if up && key in cache && now < cache[key].expiresAt then Some(cache[key].user) else None
  }

  /** An entry written at t0 is served before t0 + 600 and never from then on. */
  lemma CachedUserLivesTenMinutes(cache: UserCache, up: bool, key: string, u: User, t0: int, t: int)
    requires up
    ensures CacheGet(cache[key := CachedUser(u, t0 + UserCacheTtl)], up, key, t)
      == (if t < t0 + 600 then Some(u) else None)
  {
  }

  /** What the session sends out: API requests and cache writes. */
  datatype Io =
    | FetchGuild(guildID: string)
    | FetchMessage(channelID: string, messageID: string)
    | FetchUser(userID: string)
    | CacheWrite(key: string, expiresAt: int)
    | CreateRole(guildID: string)
    | EditRole(guildID: string, roleID: string, name: string, color: int, hoist: bool,
               permissions: PermSet, mentionable: bool)
    | SetChannelPermission(channelID: string, targetID: string, targetType: string,
                           allow: PermSet, deny: PermSet)

  /** The request GetGuild sends, if any. */
  function GuildRequests(gw: Gateway, guildID: string): seq<Io> {
    if UsableGuild(gw, guildID) then [] else [FetchGuild(guildID)]
  }

  // ---------------------------------------------------------------- messages

  datatype MessageResolution = MessageResolution(result: Lookup<Message>, gateway: Gateway, ios: seq<Io>)

  /**
   * A message lookup: a usable state entry is returned; otherwise the message
   * is fetched and, when the fetch succeeds, added to the state under its own
   * channel and ID.
   */
  function ResolveMessage(gw: Gateway, api: Remote, channelID: string, messageID: string): (res: MessageResolution)
    ensures UsableMessage(gw, channelID, messageID) ==>
      res == MessageResolution(Success(gw.messages[(channelID, messageID)]), gw, [])
    ensures !UsableMessage(gw, channelID, messageID) ==>
      res.result == Fetch(api.messages, (channelID, messageID)) && res.ios == [FetchMessage(channelID, messageID)]
    ensures res.gateway.guilds == gw.guilds && res.gateway.channels == gw.channels
      && res.gateway.members == gw.members && res.gateway.guildOrder == gw.guildOrder
    ensures res.result.Failure? ==> res.gateway == gw
    ensures !UsableMessage(gw, channelID, messageID) && res.result.Success? ==>
      res.gateway.messages == gw.messages[(res.result.value.channelID, res.result.value.id) := res.result.value]
  {
    if UsableMessage(gw, channelID, messageID) then
      MessageResolution(Success(gw.messages[(channelID, messageID)]), gw, [])
    else
      var fetched := Fetch(api.messages, (channelID, messageID));
      var gw' := if fetched.Success?
        then gw.(messages := gw.messages[(fetched.value.channelID, fetched.value.id) := fetched.value])
        else gw;
      MessageResolution(fetched, gw', [FetchMessage(channelID, messageID)])
  }

  /** A fetched message with a non-empty ID is served from the state by the next lookup. */
  lemma FetchedMessageIsRemembered(gw: Gateway, api: Remote, api': Remote, channelID: string, messageID: string, m: Message)
    requires !UsableMessage(gw, channelID, messageID)
    requires Fetch(api.messages, (channelID, messageID)) == Success(m)
    requires m.channelID == channelID && m.id == messageID && messageID != ""
    ensures var first := ResolveMessage(gw, api, channelID, messageID);
      ResolveMessage(first.gateway, api', channelID, messageID) == MessageResolution(Success(m), first.gateway, [])
  {
  }

  // ------------------------------------------------------------------- users

  predicate MemberCarriesUser(gw: Gateway, guildID: string, userID: string) {
    (guildID, userID) in gw.members
    && gw.members[(guildID, userID)].user.Some?
    && gw.members[(guildID, userID)].user.value.id != ""
  }

  /** Guild i of `order` is the first whose state member for userID carries a user. */
  predicate FirstCarrier(gw: Gateway, order: seq<string>, userID: string, i: int) {
    0 <= i < |order| && MemberCarriesUser(gw, order[i], userID)
    && forall j :: 0 <= j < i ==> !MemberCarriesUser(gw, order[j], userID)
  }

  /** u is the user carried by the member of guild i, the first carrier in `order`. */
  predicate FoundAt(gw: Gateway, order: seq<string>, userID: string, i: int, u: User) {
    FirstCarrier(gw, order, userID, i) && u == gw.members[(order[i], userID)].user.value
  }

  /** The user found in the state: the one carried by the member of the first guild, in state order, that has one. */
  function StateUser(gw: Gateway, order: seq<string>, userID: string): (r: Option<User>)
    ensures r.None? <==> forall i :: 0 <= i < |order| ==> !MemberCarriesUser(gw, order[i], userID)
    ensures r.Some? ==> exists i :: FoundAt(gw, order, userID, i, r.value)
    decreases |order|
  {
    if order == [] then None
    else if MemberCarriesUser(gw, order[0], userID) then
      assert FoundAt(gw, order, userID, 0, gw.members[(order[0], userID)].user.value);
      Some(gw.members[(order[0], userID)].user.value)
    else
      var r := StateUser(gw, order[1..], userID);
      assert r.None? ==> forall i :: 0 <= i < |order| ==> !MemberCarriesUser(gw, order[i], userID) by {
        if r.None? {
          forall i | 1 <= i < |order| ensures !MemberCarriesUser(gw, order[i], userID) {
            assert order[1..][i - 1] == order[i];
          }
        }
      }
      assert r.Some? ==> exists i :: FoundAt(gw, order, userID, i, r.value) by {
        if r.Some? {
          var i :| FoundAt(gw, order[1..], userID, i, r.value);
          forall j | 1 <= j < i + 1 ensures !MemberCarriesUser(gw, order[j], userID) {
            assert order[1..][j - 1] == order[j];
          }
          assert FoundAt(gw, order, userID, i + 1, r.value);
        }
      }
      r
  }

  /** The answer to a user lookup, the cache afterwards and what was sent out. */
  datatype UserResolution = UserResolution(user: Option<User>, err: Option<Error>, cache: UserCache, ios: seq<Io>)

  /**
   * A user lookup at time `now`: the state first, then the cache, then the
   * API; a fetched user is written to the cache with a ten-minute expiry.
   * When that write fails the user is returned together with its error.
   */
  function ResolveUser(gw: Gateway, api: Remote, cache: UserCache, up: bool, now: int, userID: string): (res: UserResolution)
    ensures res.user.Some? || res.err.Some?
    ensures res.ios != [] <==>
      StateUser(gw, gw.guildOrder, userID).None? && CacheGet(cache, up, UserCacheKey(userID), now).None?
    ensures res.cache == cache
      || (up && res.user.Some?
          && res.cache == cache[UserCacheKey(userID) := CachedUser(res.user.value, now + UserCacheTtl)])
  {
    var key := UserCacheKey(userID);
    match StateUser(gw, gw.guildOrder, userID)
    case Some(u) => UserResolution(Some(u), None, cache, [])
    case None =>
      match CacheGet(cache, up, key, now)
      case Some(u) => UserResolution(Some(u), None, cache, [])
      case None =>
        match Fetch(api.users, userID)
        case Failure(e) => UserResolution(None, Some(e), cache, [FetchUser(userID)])
        case Success(u) =>
          var expiresAt := now + UserCacheTtl;
          var ios := [FetchUser(userID), CacheWrite(key, expiresAt)];
          if up then UserResolution(Some(u), None, cache[key := CachedUser(u, expiresAt)], ios)
          else UserResolution(Some(u), Some(CacheUnavailable), cache, ios)
  }

  /** A user carried by a state member is returned without a request, whatever the cache holds. */
  lemma StateUserNeedsNoRequest(gw: Gateway, api: Remote, cache: UserCache, up: bool, now: int, userID: string, i: int)
    requires FirstCarrier(gw, gw.guildOrder, userID, i)
    ensures ResolveUser(gw, api, cache, up, now, userID)
      == UserResolution(Some(gw.members[(gw.guildOrder[i], userID)].user.value), None, cache, [])
  {
    assert MemberCarriesUser(gw, gw.guildOrder[i], userID);
    var u := StateUser(gw, gw.guildOrder, userID).value;
    var j :| FoundAt(gw, gw.guildOrder, userID, j, u);
    assert MemberCarriesUser(gw, gw.guildOrder[j], userID);
    assert !(i < j) && !(j < i);
  }

  /** A live cache entry is returned without a request when the state has no such user. */
  lemma CachedUserNeedsNoRequest(gw: Gateway, api: Remote, cache: UserCache, now: int, userID: string)
    requires forall i :: 0 <= i < |gw.guildOrder| ==> !MemberCarriesUser(gw, gw.guildOrder[i], userID)
    requires UserCacheKey(userID) in cache && now < cache[UserCacheKey(userID)].expiresAt
    ensures ResolveUser(gw, api, cache, true, now, userID)
      == UserResolution(Some(cache[UserCacheKey(userID)].user), None, cache, [])
  {
  }

  /**
   * A fetched user is cached: lookups of the same user within ten minutes
   * send nothing, and the first lookup from then on fetches again.
   */
  lemma FetchedUserIsCachedTenMinutes(gw: Gateway, api: Remote, cache: UserCache, now: int, later: int, userID: string, u: User)
    requires forall i :: 0 <= i < |gw.guildOrder| ==> !MemberCarriesUser(gw, gw.guildOrder[i], userID)
    requires CacheGet(cache, true, UserCacheKey(userID), now).None?
    requires Fetch(api.users, userID) == Success(u)
    ensures var first := ResolveUser(gw, api, cache, true, now, userID);
      first.user == Some(u) && first.err.None?
      && first.ios == [FetchUser(userID), CacheWrite(UserCacheKey(userID), now + 600)]
      && (now <= later < now + 600 ==>
            ResolveUser(gw, api, first.cache, true, later, userID) == UserResolution(Some(u), None, first.cache, []))
      && (later >= now + 600 ==>
            ResolveUser(gw, api, first.cache, true, later, userID).ios[0] == FetchUser(userID))
  {
    var first := ResolveUser(gw, api, cache, true, now, userID);
    CachedUserLivesTenMinutes(cache, true, UserCacheKey(userID), u, now, later);
  }

  /** A failed fetch returns its error and leaves the cache as it was. */
  lemma FailedFetchCachesNothing(gw: Gateway, api: Remote, cache: UserCache, up: bool, now: int, userID: string, e: Error)
    requires forall i :: 0 <= i < |gw.guildOrder| ==> !MemberCarriesUser(gw, gw.guildOrder[i], userID)
    requires CacheGet(cache, up, UserCacheKey(userID), now).None?
    requires Fetch(api.users, userID) == Failure(e)
    ensures ResolveUser(gw, api, cache, up, now, userID) == UserResolution(None, Some(e), cache, [FetchUser(userID)])
  {
  }

  /** With the cache unreachable every lookup outside the state fetches, and a fetched user comes back with the cache's error. */
  lemma UnreachableCacheReportsWithUser(gw: Gateway, api: Remote, cache: UserCache, now: int, userID: string, u: User)
    requires forall i :: 0 <= i < |gw.guildOrder| ==> !MemberCarriesUser(gw, gw.guildOrder[i], userID)
    requires Fetch(api.users, userID) == Success(u)
    ensures ResolveUser(gw, api, cache, false, now, userID).user == Some(u)
    ensures ResolveUser(gw, api, cache, false, now, userID).err == Some(CacheUnavailable)
    ensures ResolveUser(gw, api, cache, false, now, userID).cache == cache
  {
  }

  // --------------------------------------------------------------- mute role

  /** Role i of `roles` is named `name` and no later one is. */
  predicate LastNamedAt(roles: seq<Role>, name: string, i: int) {
    0 <= i < |roles| && roles[i].name == name
    && forall j :: i < j < |roles| ==> roles[j].name != name
  }

  /** The last role named `name`: the one the role loop keeps. */
  function LastRoleNamed(roles: seq<Role>, name: string): (r: Option<Role>)
    ensures r.None? <==> forall i :: 0 <= i < |roles| ==> roles[i].name != name
    ensures r.Some? ==> exists i :: LastNamedAt(roles, name, i) && r.value == roles[i]
    decreases |roles|
  {
    if roles == [] then None
    else
      var last := |roles| - 1;
      if roles[last].name == name then
        assert LastNamedAt(roles, name, last);
        Some(roles[last])
      else
        var init := roles[..last];
        var r := LastRoleNamed(init, name);
        assert r.None? ==> forall i :: 0 <= i < |roles| ==> roles[i].name != name by {
          if r.None? {
            forall i | 0 <= i < last ensures roles[i].name != name {
              assert init[i] == roles[i];
            }
          }
        }
        assert r.Some? ==> exists i :: LastNamedAt(roles, name, i) && r.value == roles[i] by {
          if r.Some? {
            var i :| LastNamedAt(init, name, i) && r.value == init[i];
            assert init[i] == roles[i];
            assert LastNamedAt(roles, name, i);
          }
        }
        r
  }

  /** The role loop of mute-role provisioning: the last role with the name wins. */
  method FindRoleNamed(roles: seq<Role>, name: string) returns (found: Option<Role>)
    ensures found == LastRoleNamed(roles, name)
  {
    found := None;
    for i := 0 to |roles|
      invariant found == LastRoleNamed(roles[..i], name)
    {
      assert roles[..i + 1][..i] == roles[..i];
      if roles[i].name == name {
        found := Some(roles[i]);
      }
    }
    assert roles[..|roles|] == roles;
  }

  /** The overwrite that denies a role sending messages in a channel. */
  function DenySendMessages(channelID: string, roleID: string): Io {
    SetChannelPermission(channelID, roleID, "role", {}, PermissionSendMessages)
  }

  function DenyInChannels(channels: seq<Channel>, roleID: string): (ios: seq<Io>)
    ensures |ios| == |channels|
    ensures forall k :: 0 <= k < |channels| ==> ios[k] == DenySendMessages(channels[k].id, roleID)
  {
    seq(|channels|, k requires 0 <= k < |channels| => DenySendMessages(channels[k].id, roleID))
  }

  datatype MuteOutcome = MuteOutcome(result: Lookup<Role>, ios: seq<Io>)

  /**
   * Mute-role provisioning: the last role of the guild with the configured
   * name is returned; otherwise a role is created, edited to the configured
   * name with no permissions, and the role the edit answers with is denied
   * sending messages in every channel of the guild. The answers to the
   * overwrites are not consulted: a failed overwrite is only logged.
   */
  function ProvisionMuteRole(gw: Gateway, api: Remote, guildID: string, mutedRoleName: string): (out: MuteOutcome)
    ensures CreateRole(guildID) in out.ios <==>
      GetGuild(gw, api, guildID).Success? && LastRoleNamed(GetGuild(gw, api, guildID).value.roles, mutedRoleName).None?
    ensures out.result.Failure? ==> forall k :: 0 <= k < |out.ios| ==> !out.ios[k].SetChannelPermission?
  {
    var lookup := GuildRequests(gw, guildID);
    match GetGuild(gw, api, guildID)
    case Failure(e) => MuteOutcome(Failure(e), lookup)
    case Success(guild) =>
      match LastRoleNamed(guild.roles, mutedRoleName)
      case Some(role) => MuteOutcome(Success(role), lookup)
      case None =>
        var create := lookup + [CreateRole(guildID)];
        match Fetch(api.roleCreate, guildID)
        case Failure(e) => MuteOutcome(Failure(e), create)
        case Success(created) =>
          var edit := create + [EditRole(guildID, created.id, mutedRoleName, created.color, created.hoist, {}, created.mentionable)];
          match Fetch(api.roleEdit, created.id)
          case Failure(e) => MuteOutcome(Failure(e), edit)
          case Success(muteRole) => MuteOutcome(Success(muteRole), edit + DenyInChannels(guild.channels, muteRole.id))
  }

  /** An existing role with the name is reused, the last one if several have it, and nothing is written. */
  lemma ExistingMuteRoleIsReused(gw: Gateway, api: Remote, guildID: string, mutedRoleName: string, guild: Guild, i: int)
    requires GetGuild(gw, api, guildID) == Success(guild)
    requires LastNamedAt(guild.roles, mutedRoleName, i)
    ensures ProvisionMuteRole(gw, api, guildID, mutedRoleName)
      == MuteOutcome(Success(guild.roles[i]), GuildRequests(gw, guildID))
  {
    var r := LastRoleNamed(guild.roles, mutedRoleName);
    var j :| LastNamedAt(guild.roles, mutedRoleName, j) && r.value == guild.roles[j];
    assert !(i < j) && !(j < i);
  }

  /** The requests of a provisioning that creates a role: create, edit it, then one overwrite per channel. */
  function CreateAndDenyRequests(gw: Gateway, guildID: string, mutedRoleName: string, created: Role,
                                 channels: seq<Channel>, muteRoleID: string): seq<Io> {
    GuildRequests(gw, guildID)
    + [CreateRole(guildID),
       EditRole(guildID, created.id, mutedRoleName, created.color, created.hoist, {}, created.mentionable)]
    + DenyInChannels(channels, muteRoleID)
  }

  /**
   * Without a role of that name, a role is created and edited to the
   * configured name and no permissions, keeping the created role's color,
   * hoist and mentionable flags; the edited role is returned and every
   * channel of the guild gets an overwrite denying it SendMessages.
   */
  lemma CreatedMuteRoleIsDeniedEverywhere(gw: Gateway, api: Remote, guildID: string, mutedRoleName: string,
                                          guild: Guild, created: Role, edited: Role)
    requires GetGuild(gw, api, guildID) == Success(guild)
    requires forall i :: 0 <= i < |guild.roles| ==> guild.roles[i].name != mutedRoleName
    requires Fetch(api.roleCreate, guildID) == Success(created)
    requires Fetch(api.roleEdit, created.id) == Success(edited)
    ensures var out := ProvisionMuteRole(gw, api, guildID, mutedRoleName);
      out.result == Success(edited)
      && out.ios == CreateAndDenyRequests(gw, guildID, mutedRoleName, created, guild.channels, edited.id)
      && forall c :: c in guild.channels ==> DenySendMessages(c.id, edited.id) in out.ios
  {
    var out := ProvisionMuteRole(gw, api, guildID, mutedRoleName);
    var head := GuildRequests(gw, guildID) + [CreateRole(guildID)]
      + [EditRole(guildID, created.id, mutedRoleName, created.color, created.hoist, {}, created.mentionable)];
    var denies := DenyInChannels(guild.channels, edited.id);
    assert out.ios == head + denies;
    forall c | c in guild.channels ensures DenySendMessages(c.id, edited.id) in out.ios {
      var k :| 0 <= k < |guild.channels| && guild.channels[k] == c;
      assert out.ios[|head| + k] == denies[k];
    }
  }

  /** A failed create is returned at once: no edit and no overwrite is sent. */
  lemma CreateFailureStops(gw: Gateway, api: Remote, guildID: string, mutedRoleName: string, guild: Guild)
    requires GetGuild(gw, api, guildID) == Success(guild)
    requires forall i :: 0 <= i < |guild.roles| ==> guild.roles[i].name != mutedRoleName
    requires Fetch(api.roleCreate, guildID).Failure?
    ensures ProvisionMuteRole(gw, api, guildID, mutedRoleName)
      == MuteOutcome(Fetch(api.roleCreate, guildID), GuildRequests(gw, guildID) + [CreateRole(guildID)])
  {
  }

  /** A failed edit is returned at once: the created role gets no overwrite. */
  lemma EditFailureStops(gw: Gateway, api: Remote, guildID: string, mutedRoleName: string, guild: Guild, created: Role)
    requires GetGuild(gw, api, guildID) == Success(guild)
    requires forall i :: 0 <= i < |guild.roles| ==> guild.roles[i].name != mutedRoleName
    requires Fetch(api.roleCreate, guildID) == Success(created)
    requires Fetch(api.roleEdit, created.id).Failure?
    ensures ProvisionMuteRole(gw, api, guildID, mutedRoleName)
      == MuteOutcome(Fetch(api.roleEdit, created.id),
                     CreateAndDenyRequests(gw, guildID, mutedRoleName, created, [], created.id))
  {
  }

  /**
   * Provisioning is idempotent: once the state's guild holds the role
   * returned, provisioning again returns that same role and writes nothing,
   * provided the role carries the configured name (a reused role always
   * does; a created one does when the edit answers with the name it was
   * asked to set).
   */
  lemma ProvisionMuteRoleIdempotent(gw: Gateway, api: Remote, api': Remote, guildID: string, mutedRoleName: string)
    requires UsableGuild(gw, guildID)
    requires ProvisionMuteRole(gw, api, guildID, mutedRoleName).result.Success?
    requires ProvisionMuteRole(gw, api, guildID, mutedRoleName).result.value.name == mutedRoleName
    ensures var role := ProvisionMuteRole(gw, api, guildID, mutedRoleName).result.value;
      var guild := gw.guilds[guildID];
      var gw' := gw.(guilds := gw.guilds[guildID := guild.(roles := guild.roles + [role])]);
      ProvisionMuteRole(gw', api', guildID, mutedRoleName) == MuteOutcome(Success(role), [])
  {
    var role := ProvisionMuteRole(gw, api, guildID, mutedRoleName).result.value;
    var guild := gw.guilds[guildID];
    var roles' := guild.roles + [role];
    assert roles'[|roles'| - 1] == role;
    assert LastRoleNamed(roles', mutedRoleName) == Some(role);
  }

  /** A reused role carries the configured name, so the name condition of idempotence is met. */
  lemma ReusedMuteRoleIsNamed(gw: Gateway, api: Remote, guildID: string, mutedRoleName: string, guild: Guild)
    requires GetGuild(gw, api, guildID) == Success(guild)
    requires LastRoleNamed(guild.roles, mutedRoleName).Some?
    ensures ProvisionMuteRole(gw, api, guildID, mutedRoleName).result.Success?
    ensures ProvisionMuteRole(gw, api, guildID, mutedRoleName).result.value.name == mutedRoleName
  {
    var r := LastRoleNamed(guild.roles, mutedRoleName);
    var i :| LastNamedAt(guild.roles, mutedRoleName, i) && r.value == guild.roles[i];
  }

  // ------------------------------------------------------------ confirmation

  /** The decision of one poll of a confirmation prompt. */
  datatype Verdict = Confirmed | Aborted | Pending

  predicate ReactedBy(reactors: seq<User>, userID: string) {
    exists i :: 0 <= i < |reactors| && reactors[i].id == userID
  }

  /**
   * One tick of the confirmation poll: the users who reacted with the
   * confirm emoji are looked at first, so a user who reacted with both
   * confirms.
   */
  method ConfirmTick(confirmers: seq<User>, aborters: seq<User>, authorID: string) returns (v: Verdict)
    ensures v == Confirmed <==> ReactedBy(confirmers, authorID)
    ensures v == Aborted <==> !ReactedBy(confirmers, authorID) && ReactedBy(aborters, authorID)
  {
    for i := 0 to |confirmers|
      invariant forall k :: 0 <= k < i ==> confirmers[k].id != authorID
    {
      if confirmers[i].id == authorID {
        return Confirmed;
      }
    }
    for i := 0 to |aborters|
      invariant forall k :: 0 <= k < i ==> aborters[k].id != authorID
    {
      if aborters[i].id == authorID {
        return Aborted;
      }
    }
    return Pending;
  }

  // ----------------------------------------------------------------- session

  /** The session: the gateway state it keeps, the API it talks to and the user cache it shares. */
  class Session {
    var gateway: Gateway
    const api: Remote
    var cache: UserCache
    const cacheUp: bool
    var log: seq<Io>

    constructor (gateway: Gateway, api: Remote, cache: UserCache, cacheUp: bool)
      ensures this.gateway == gateway && this.api == api && this.cache == cache && this.cacheUp == cacheUp
      ensures log == []
    {
      this.gateway := gateway;
      this.api := api;
      this.cache := cache;
      this.cacheUp := cacheUp;
      log := [];
    }

    method GetMessage(channelID: string, messageID: string) returns (r: Lookup<Message>)
      modifies this
      ensures var res := ResolveMessage(old(gateway), api, channelID, messageID);
        r == res.result && gateway == res.gateway && log == old(log) + res.ios
      ensures cache == old(cache)
    {
      if (channelID, messageID) in gateway.messages && gateway.messages[(channelID, messageID)].id != "" {
        return Success(gateway.messages[(channelID, messageID)]);
      }
      log := log + [FetchMessage(channelID, messageID)];
      r := Fetch(api.messages, (channelID, messageID));
      if r.Success? {
        var m := r.value;
        gateway := gateway.(messages := gateway.messages[(m.channelID, m.id) := m]);
      }
    }

    method GetUser(userID: string, now: int) returns (user: Option<User>, err: Option<Error>)
      modifies this
      ensures var res := ResolveUser(old(gateway), api, old(cache), cacheUp, now, userID);
        user == res.user && err == res.err && cache == res.cache && log == old(log) + res.ios
      ensures gateway == old(gateway)
    {
      var gw := gateway;
      var order := gw.guildOrder;
      var i := 0;
      while i < |order|
        invariant 0 <= i <= |order|
        invariant StateUser(gw, order[i..], userID) == StateUser(gw, order, userID)
      {
        var guildID := order[i];
        if (guildID, userID) in gw.members {
          var member := gw.members[(guildID, userID)];
          if member.user.Some? && member.user.value.id != "" {
            return member.user, None;
          }
        }
        assert order[i..][1..] == order[i + 1..];
        i := i + 1;
      }
      var key := UserCacheKey(userID);
      user := CacheGet(cache, cacheUp, key, now);
      if user.Some? {
        return user, None;
      }
      log := log + [FetchUser(userID)];
      var fetched := Fetch(api.users, userID);
      if fetched.Failure? {
        return None, Some(fetched.error);
      }
      var expiresAt := now + UserCacheTtl;
      log := log + [CacheWrite(key, expiresAt)];
      if cacheUp {
        cache := cache[key := CachedUser(fetched.value, expiresAt)];
        err := None;
      } else {
        err := Some(CacheUnavailable);
      }
      user := Some(fetched.value);
    }

    /** A mention without digits is answered with an empty user and "User not found." */
    method GetUserFromMention(mention: string, now: int) returns (user: Option<User>, err: Option<Error>)
      modifies this
      ensures MentionID(mention).None? ==>
        user == Some(User("", "", "")) && err == Some(Failed(UserNotFound))
        && cache == old(cache) && log == old(log)
      ensures MentionID(mention).Some? ==>
        var res := ResolveUser(old(gateway), api, old(cache), cacheUp, now, MentionID(mention).value);
        user == res.user && err == res.err && cache == res.cache && log == old(log) + res.ios
      ensures gateway == old(gateway)
    {
      var id := MentionID(mention);
      if id.None? {
        return Some(User("", "", "")), Some(Failed(UserNotFound));
      }
      user, err := GetUser(id.value, now);
    }

    /** The overwrite loop of mute-role provisioning; the answers are only logged, so they are not read. */
    method DenyInAllChannels(channels: seq<Channel>, roleID: string)
      modifies this
      ensures log == old(log) + DenyInChannels(channels, roleID)
      ensures gateway == old(gateway) && cache == old(cache)
    {
      for i := 0 to |channels|
        invariant log == old(log) + DenyInChannels(channels[..i], roleID)
        invariant gateway == old(gateway) && cache == old(cache)
      {
        log := log + [DenySendMessages(channels[i].id, roleID)];
      }
      assert channels[..|channels|] == channels;
    }

    method GetMuteRole(guildID: string, mutedRoleName: string) returns (r: Lookup<Role>)
      modifies this
      ensures var out := ProvisionMuteRole(old(gateway), api, guildID, mutedRoleName);
        r == out.result && log == old(log) + out.ios
      ensures gateway == old(gateway) && cache == old(cache)
    {
      var gw := gateway;
      log := log + GuildRequests(gw, guildID);
      var guildResult := GetGuild(gw, api, guildID);
      if guildResult.Failure? {
        return Failure(guildResult.error);
      }
      var guild := guildResult.value;
      var muteRole := FindRoleNamed(guild.roles, mutedRoleName);
      if muteRole.Some? {
        return Success(muteRole.value);
      }
      log := log + [CreateRole(guildID)];
      var created := Fetch(api.roleCreate, guildID);
      if created.Failure? {
        return Failure(created.error);
      }
      var role := created.value;
      log := log + [EditRole(guildID, role.id, mutedRoleName, role.color, role.hoist, {}, role.mentionable)];
      var edited := Fetch(api.roleEdit, role.id);
      if edited.Failure? {
        return Failure(edited.error);
      }
      role := edited.value;
      DenyInAllChannels(guild.channels, role.id);
      r := Success(role);
    }
  }
}
