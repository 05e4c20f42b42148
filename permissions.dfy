/**
 * The authorization layer: fixed ID allow-lists, role-name lists and the
 * yes/no checks built from them over resolved guilds and members. Every
 * resolution failure answers false.
 */
module Permissions {
  import opened Wrappers
  import opened Discord
  import opened Resolver

  const BotAdmins: seq<string> := ["116620585638821891", "134298438559858688"]
  const NukeMods: seq<string> := ["116620585638821891", "134298438559858688", "68661361537712128"]
  const RobyulMods: seq<string> := ["132633380628987904"]
  const Blacklisted: seq<string> := ["171883318386753536"]
  const ExtendedInspectRoleIDs: seq<string> := ["345209385821274113", "345209098100277248"]
  const AdminRoleNames: seq<string> := ["Admin", "Admins", "ADMIN", "School Board", "admin", "admins"]
  const ModRoleNames: seq<string> :=
    ["Mod", "Mods", "Mod Trainee", "Moderator", "Moderators", "MOD", "Minimod", "Guard", "Janitor", "mod", "mods"]
  const EveryoneRoleName: string := "@everyone"

  /** The ID-list checks: the scan answers true at the first entry equal to the ID. */
  predicate IsBlacklisted(id: string): (r: bool)
    ensures r <==> exists i :: 0 <= i < |Blacklisted| && Blacklisted[i] == id
  {
    id in Blacklisted
  }

  predicate IsNukeMod(id: string): (r: bool)
    ensures r <==> exists i :: 0 <= i < |NukeMods| && NukeMods[i] == id
  {
    id in NukeMods
  }

  predicate IsBotAdmin(id: string): (r: bool)
    ensures r <==> exists i :: 0 <= i < |BotAdmins| && BotAdmins[i] == id
  {
    id in BotAdmins
  }

  /** A Robyul mod is a bot admin or an ID of the Robyul mod list. */
  predicate IsRobyulMod(id: string): (r: bool)
    ensures r <==> IsBotAdmin(id) || exists i :: 0 <= i < |RobyulMods| && RobyulMods[i] == id
  {
    IsBotAdmin(id) || id in RobyulMods
  }

  /** Every bot admin is also a nuke mod and a Robyul mod. */
  lemma BotAdminIsNukeModAndRobyulMod(id: string)
    requires IsBotAdmin(id)
    ensures IsNukeMod(id) && IsRobyulMod(id)
  {
  }

  /** What the innermost body of each role search tests on one held role. */
  datatype RoleTest =
    | AdminTest                  // Administrator bit, or a name in AdminRoleNames
    | ModTest                    // a name in ModRoleNames
    | InspectTest                // an ID in ExtendedInspectRoleIDs
    | PermissionTest(p: PermSet)    // every bit of p

  predicate Passes(role: Role, t: RoleTest) {
    match t
    case AdminTest => Covers(role.permissions, PermissionAdministrator) || role.name in AdminRoleNames
    case ModTest => role.name in ModRoleNames
    case InspectTest => role.id in ExtendedInspectRoleIDs
    case PermissionTest(p) => Covers(role.permissions, p)
  }

  /** Some role of the guild that the member holds passes the test, on its own. */
  ghost predicate HoldsRolePassing(roles: seq<Role>, held: seq<string>, t: RoleTest) {
    exists i :: 0 <= i < |roles| && roles[i].id in held && Passes(roles[i], t)
  }

  /**
   * The nested search `for role in guild.Roles { for userRole in
   * member.Roles { if userRole == role.ID { ...test... } } }` that returns
   * true at the first held role passing the test.
   */
  function SomeHeldRolePasses(roles: seq<Role>, held: seq<string>, t: RoleTest): (r: bool)
    ensures r <==> HoldsRolePassing(roles, held, t)
  {
    if roles == [] then false
    else if roles[0].id in held && Passes(roles[0], t) then true
    else
      var r := SomeHeldRolePasses(roles[1..], held, t);
      assert HoldsRolePassing(roles, held, t) ==> HoldsRolePassing(roles[1..], held, t) by {
        if HoldsRolePassing(roles, held, t) {
          var i :| 0 <= i < |roles| && roles[i].id in held && Passes(roles[i], t);
          assert i > 0 && roles[1..][i - 1] == roles[i];
        }
      }
      r
  }

  /** The search on a resolved guild: fails closed when the member cannot be resolved. */
  function MemberHolds(gw: Gateway, api: Remote, g: Guild, userID: string, t: RoleTest): bool {
    match GetGuildMember(gw, api, g.id, userID)
    case Failure(_) => false
    case Success(m) => SomeHeldRolePasses(g.roles, m.roles, t)
  }

  function IsAdminByID(gw: Gateway, api: Remote, guildID: string, userID: string): (r: bool)
    ensures r <==>
      match GetGuild(gw, api, guildID)
      case Failure(_) => false
      case Success(g) =>
        userID == g.ownerID || userID in BotAdmins
        || match GetGuildMember(gw, api, g.id, userID)
           case Failure(_) => false
           case Success(m) =>
             exists i :: 0 <= i < |g.roles| && g.roles[i].id in m.roles
               && (Covers(g.roles[i].permissions, PermissionAdministrator) || g.roles[i].name in AdminRoleNames)
  {
    match GetGuild(gw, api, guildID)
    case Failure(_) => false
    case Success(g) => userID == g.ownerID || IsBotAdmin(userID) || MemberHolds(gw, api, g, userID, AdminTest)
  }

  function IsModByID(gw: Gateway, api: Remote, guildID: string, userID: string): (r: bool)
    ensures r <==>
      IsAdminByID(gw, api, guildID, userID)
      || match GetGuild(gw, api, guildID)
         case Failure(_) => false
         case Success(g) =>
           match GetGuildMember(gw, api, g.id, userID)
           case Failure(_) => false
           case Success(m) =>
             exists i :: 0 <= i < |g.roles| && g.roles[i].id in m.roles && g.roles[i].name in ModRoleNames
  {
    if IsAdminByID(gw, api, guildID, userID) then true
    else
      match GetGuild(gw, api, guildID)
      case Failure(_) => false
      case Success(g) => MemberHolds(gw, api, g, userID, ModTest)
  }

  function HasPermissionByID(gw: Gateway, api: Remote, guildID: string, userID: string, permission: PermSet): (r: bool)
    ensures r <==>
      match GetGuild(gw, api, guildID)
      case Failure(_) => false
      case Success(g) =>
        userID == g.ownerID
        || match GetGuildMember(gw, api, g.id, userID)
           case Failure(_) => false
           case Success(m) =>
             exists i :: 0 <= i < |g.roles| && g.roles[i].id in m.roles && Covers(g.roles[i].permissions, permission)
  {
    match GetGuild(gw, api, guildID)
    case Failure(_) => false
    case Success(g) => userID == g.ownerID || MemberHolds(gw, api, g, userID, PermissionTest(permission))
  }

  /** The message-based checks resolve the guild through the message's channel. */
  function IsAdmin(gw: Gateway, api: Remote, msg: Message): (r: bool)
    ensures r <==>
      GetChannel(gw, api, msg.channelID).Success?
      && IsAdminByID(gw, api, GetChannel(gw, api, msg.channelID).value.guildID, msg.authorID)
  {
    match GetChannel(gw, api, msg.channelID)
    case Failure(_) => false
    case Success(channel) =>
      match GetGuild(gw, api, channel.guildID)
      case Failure(_) => false
      case Success(g) =>
        msg.authorID == g.ownerID || IsBotAdmin(msg.authorID) || MemberHolds(gw, api, g, msg.authorID, AdminTest)
  }

  function IsMod(gw: Gateway, api: Remote, msg: Message): (r: bool)
    ensures r <==>
      GetChannel(gw, api, msg.channelID).Success?
      && IsModByID(gw, api, GetChannel(gw, api, msg.channelID).value.guildID, msg.authorID)
  {
    if IsAdmin(gw, api, msg) then true
    else
      match GetChannel(gw, api, msg.channelID)
      case Failure(_) => false
      case Success(channel) =>
        match GetGuild(gw, api, channel.guildID)
        case Failure(_) => false
        case Success(g) => MemberHolds(gw, api, g, msg.authorID, ModTest)
  }

  function CanInspectExtended(gw: Gateway, api: Remote, msg: Message): (r: bool)
    ensures IsBotAdmin(msg.authorID) || IsRobyulMod(msg.authorID) || IsNukeMod(msg.authorID) ==> r
    ensures r && !IsRobyulMod(msg.authorID) && !IsNukeMod(msg.authorID) ==>
      GetChannel(gw, api, msg.channelID).Success?
      && var g := GetGuild(gw, api, GetChannel(gw, api, msg.channelID).value.guildID);
         g.Success? && GetGuildMember(gw, api, g.value.id, msg.authorID).Success?
         && exists i :: 0 <= i < |g.value.roles|
              && g.value.roles[i].id in GetGuildMember(gw, api, g.value.id, msg.authorID).value.roles
              && g.value.roles[i].id in ExtendedInspectRoleIDs
    ensures (GetChannel(gw, api, msg.channelID).Success?
             && var g := GetGuild(gw, api, GetChannel(gw, api, msg.channelID).value.guildID);
                g.Success? && GetGuildMember(gw, api, g.value.id, msg.authorID).Success?
                && exists i :: 0 <= i < |g.value.roles|
                     && g.value.roles[i].id in GetGuildMember(gw, api, g.value.id, msg.authorID).value.roles
                     && g.value.roles[i].id in ExtendedInspectRoleIDs) ==> r
  {
    if IsBotAdmin(msg.authorID) || IsRobyulMod(msg.authorID) || IsNukeMod(msg.authorID) then true
    else
      match GetChannel(gw, api, msg.channelID)
      case Failure(_) => false
      case Success(channel) =>
        match GetGuild(gw, api, channel.guildID)
        case Failure(_) => false
        case Success(g) => MemberHolds(gw, api, g, msg.authorID, InspectTest)
  }

  /** Even a bot admin is denied when the guild cannot be resolved. */
  lemma UnresolvedGuildDeniesEveryone(gw: Gateway, api: Remote, guildID: string, userID: string, p: PermSet)
    requires GetGuild(gw, api, guildID).Failure?
    ensures !IsAdminByID(gw, api, guildID, userID)
    ensures !IsModByID(gw, api, guildID, userID)
    ensures !HasPermissionByID(gw, api, guildID, userID, p)
  {
  }

  /** The owner of a resolvable guild and every bot admin are admins there, with no member lookup. */
  lemma OwnerAndBotAdminAreAdmins(gw: Gateway, api: Remote, guildID: string, userID: string)
    requires GetGuild(gw, api, guildID).Success?
    requires userID == GetGuild(gw, api, guildID).value.ownerID || IsBotAdmin(userID)
    ensures IsAdminByID(gw, api, guildID, userID)
  {
  }

  /** The owner of a resolvable guild has every permission. */
  lemma OwnerHasEveryPermission(gw: Gateway, api: Remote, guildID: string, p: PermSet)
    requires GetGuild(gw, api, guildID).Success?
    ensures HasPermissionByID(gw, api, guildID, GetGuild(gw, api, guildID).value.ownerID, p)
  {
  }

  /** Every admin is a mod. */
  lemma AdminIsMod(gw: Gateway, api: Remote, guildID: string, userID: string)
    requires IsAdminByID(gw, api, guildID, userID)
    ensures IsModByID(gw, api, guildID, userID)
  {
  }

  /** Beyond the admins, only a held guild role named exactly as a mod role makes a mod. */
  lemma ModBeyondAdminHoldsModRole(gw: Gateway, api: Remote, guildID: string, userID: string)
    requires IsModByID(gw, api, guildID, userID) && !IsAdminByID(gw, api, guildID, userID)
    ensures GetGuild(gw, api, guildID).Success?
    ensures var g := GetGuild(gw, api, guildID).value;
      GetGuildMember(gw, api, g.id, userID).Success?
      && exists i :: 0 <= i < |g.roles| && g.roles[i].id in GetGuildMember(gw, api, g.id, userID).value.roles
           && g.roles[i].name in ModRoleNames
  {
  }

  /**
   * The permission search never looks at role names: two role lists that
   * agree on IDs and permission bits give the same answer.
   */
  lemma {:induction false} PermissionSearchIgnoresNames(roles: seq<Role>, roles': seq<Role>, held: seq<string>, p: PermSet)
    requires |roles| == |roles'|
    requires forall i :: 0 <= i < |roles| ==> roles[i].id == roles'[i].id && roles[i].permissions == roles'[i].permissions
    ensures SomeHeldRolePasses(roles, held, PermissionTest(p)) == SomeHeldRolePasses(roles', held, PermissionTest(p))
  {
    if roles != [] {
      PermissionSearchIgnoresNames(roles[1..], roles'[1..], held, p);
    }
  }

  /**
   * Each held role is tested on its own: two held roles that together hold
   * the bits, neither alone, do not grant them.
   */
  lemma PermissionIsNotUnionOfRoles()
    ensures var roles := [Role("1", "kick", {1}, 0, false, false), Role("2", "ban", {2}, 0, false, false)];
      !SomeHeldRolePasses(roles, ["1", "2"], PermissionTest({1, 2}))
  {
  }

  predicate Grants(role: Role, m: Member) {
    role.name == EveryoneRoleName || role.id in m.roles
  }

  /** `u` has every bit that some role granted to the member carries. */
  predicate CoversGranted(g: Guild, m: Member, u: PermSet) {
    forall i :: 0 <= i < |g.roles| && Grants(g.roles[i], m) ==> Covers(u, g.roles[i].permissions)
  }

  /**
   * The effective permissions: the OR of every role named @everyone and of
   * every guild role whose ID the member holds (IDs the guild lacks add
   * nothing). Stated as the least value covering all those roles.
   */
  method GetAllPermissions(g: Guild, m: Member) returns (perms: PermSet)
    ensures forall i :: 0 <= i < |g.roles| && g.roles[i].name == EveryoneRoleName ==> Covers(perms, g.roles[i].permissions)
    ensures forall i :: 0 <= i < |g.roles| && g.roles[i].id in m.roles ==> Covers(perms, g.roles[i].permissions)
    ensures forall u: PermSet :: CoversGranted(g, m, u) ==> Covers(u, perms)
  {
    perms := {};
    for k := 0 to |g.roles|
      invariant forall i :: 0 <= i < k && g.roles[i].name == EveryoneRoleName ==> Covers(perms, g.roles[i].permissions)
      invariant forall u: PermSet :: CoversGranted(g, m, u) ==> Covers(u, perms)
    {
      if g.roles[k].name == EveryoneRoleName {
        perms := perms + g.roles[k].permissions;
      }
    }
    for j := 0 to |m.roles|
      invariant forall i :: 0 <= i < |g.roles| && g.roles[i].name == EveryoneRoleName ==> Covers(perms, g.roles[i].permissions)
      invariant forall i :: 0 <= i < |g.roles| && g.roles[i].id in m.roles[..j] ==> Covers(perms, g.roles[i].permissions)
      invariant forall u: PermSet :: CoversGranted(g, m, u) ==> Covers(u, perms)
    {
      for k := 0 to |g.roles|
        invariant forall i :: 0 <= i < |g.roles| && g.roles[i].name == EveryoneRoleName ==> Covers(perms, g.roles[i].permissions)
        invariant forall i :: 0 <= i < |g.roles| && g.roles[i].id in m.roles[..j] ==> Covers(perms, g.roles[i].permissions)
        invariant forall i :: 0 <= i < k && g.roles[i].id == m.roles[j] ==> Covers(perms, g.roles[i].permissions)
        invariant forall u: PermSet :: CoversGranted(g, m, u) ==> Covers(u, perms)
      {
        if g.roles[k].id == m.roles[j] {
          perms := perms + g.roles[k].permissions;
        }
      }
      assert forall x :: x in m.roles[..j + 1] <==> x in m.roles[..j] || x == m.roles[j];
    }
    assert m.roles[..|m.roles|] == m.roles;
  }

  /**
   * A permission granted by one held role is in the effective permissions:
   * whatever HasPermissionByID grants through a role, GetAllPermissions
   * (any value covering the granted roles) contains.
   */
  lemma HeldRoleBitsAreEffective(g: Guild, m: Member, perms: PermSet, p: PermSet)
    requires CoversGranted(g, m, perms)
    requires SomeHeldRolePasses(g.roles, m.roles, PermissionTest(p))
    ensures Covers(perms, p)
  {
    var i :| 0 <= i < |g.roles| && g.roles[i].id in m.roles && Passes(g.roles[i], PermissionTest(p));
    assert Grants(g.roles[i], m);
  }

  /**
   * A guild with roles @everyone (send messages) and "Mods" (send messages
   * and kick members), and a member holding only "Mods": the member may
   * kick, is no admin and is a mod.
   */
  lemma ModsScenario(api: Remote)
    ensures
      var everyone := Role("r1", EveryoneRoleName, PermissionSendMessages, 0, false, false);
      var mods := Role("r2", "Mods", PermissionSendMessages + PermissionKickMembers, 0, false, false);
      var g := Guild("g1", "owner", [everyone, mods], []);
      var gw := Gateway(map["g1" := g], ["g1"], map[], map[("g1", "u1") := Member("g1", "2017-01-01", None, ["r2"])], map[]);
      HasPermissionByID(gw, api, "g1", "u1", PermissionKickMembers)
      && !IsAdminByID(gw, api, "g1", "u1")
      && IsModByID(gw, api, "g1", "u1")
  {
  }
}
