# Guild-state lookup and authorization: a Dafny model

This project models the guild-state lookup and authorization layer of a chat
bot for a community platform, plus the post de-duplication step of its
Facebook poller:

- **Authorization** (`Permissions`). These are the fixed ID allow-lists and the
  checks built on them: bot admin, nuke mod, Robyul mod, blacklisted and
  extended inspect. They combine with guild ownership, the Administrator bit
  and case-sensitive role-name lists into the admin, mod and
  explicit-permission checks. Every failed lookup denies. `GetAllPermissions`,
  the union of a member's permission bits, is the only permission computation
  that takes a union.
- **Entity resolution** (`Resolver`, `Sessions`). Guild, channel, member and
  message lookups consult the gateway state first and the API only when the
  state entry is missing or has empty identity fields. A fetched message is
  stored back in the state. User lookups scan the state's guilds, then a
  shared cache with a ten-minute expiry, then the API.
- **Mute-role provisioning** (`Sessions`). It reuses the last role with the
  configured name. Otherwise it creates and renames a role and denies it
  SendMessages on every channel. A failed overwrite is only logged.
- **Pure helpers.** These are mention parsing (`Mentions`), snowflake
  timestamps (`Snowflake`), avatar URLs (`Avatars`), decimal text (`Decimal`) and
  paging of long messages (`Paging`).
- **Facebook de-duplication** (`Facebook`). The fetched posts are reversed in
  place. Each post whose ID has not been recorded is then recorded and
  announced, and the entry is saved only when something changed.

How the model is built:

- **State and API.** The gateway state is a value (`Resolver.Gateway`): maps
  keyed by ID, and the order of the state's guild list. The remote API is a
  fixed table of answers (`Resolver.Remote`); a key with no answer stands for
  a NotFound reply. The operations that change state are methods of the class
  `Sessions.Session`. Its fields are the gateway state, the API, the user
  cache and a log of every request and cache write the session sends. Each
  method is proved equal to a specification function: `ResolveMessage`,
  `ResolveUser` or `ProvisionMuteRole`. The lemmas are stated about those
  functions.
- **Permission bit masks** are sets of bit positions below 64. A bitwise OR
  is a union, and `perms & p == p` is `p <= perms`.
- **Panics.** `Relax(err)` panics on an error. The model returns that error
  instead: `GetMuteRole`'s guild lookup and `GetTimeFromSnowflake`'s parse.
- **Inputs.** The clock (`now`, in seconds) and whether the cache is
  reachable are inputs of a user lookup. The configured mute-role name is a
  parameter of `GetMuteRole`.
- **Strings** are sequences of single-byte characters.

Some behaviours of the code are easy to misread; the model follows the code:

- **Member lookups.** They do not resolve the guild first.
  `GetGuildMember` goes straight to the state and then to the API.
- **Bot admins.** `IsAdminByID`, `IsModByID` and `HasPermissionByID` deny
  them when the guild cannot be resolved (`UnresolvedGuildDeniesEveryone`).
  `IsAdmin` and `IsMod` also need the message's channel to resolve.
  `CanInspectExtended` lets them through before any lookup.
- **The Administrator bit and explicit permissions** are tested on each held
  role separately, not on the union of the member's roles
  (`PermissionIsNotUnionOfRoles`). Only `GetAllPermissions` takes the union.
- **The nuke-mod list** includes both bot admins; it is not disjoint from
  them.
- **Failed cache writes.** `GetUser` returns the fetched user together with
  the cache write's error.
- **Idempotence of mute-role provisioning.** A second call reuses the role
  only once the state's guild lists that role, and only when that role carries
  the configured name. A created role is the one the edit request answers
  with; the code does not check its name. The proof assumes both
  (`ProvisionMuteRoleIdempotent`).

## Model

| member | source | states |
|---|---|---|
| `Permissions.IsBlacklisted` | helpers/discord.go:46-54 | True exactly when some entry of the blacklist equals the ID. |
| `Permissions.IsNukeMod` | helpers/discord.go:56-64 | True exactly when some entry of the nuke-mod list equals the ID. |
| `Permissions.IsBotAdmin` | helpers/discord.go:66-75 | True exactly when some entry of the bot-admin list equals the ID. |
| `Permissions.IsRobyulMod` | helpers/discord.go:77-88 | True exactly for a bot admin or an ID equal to some entry of the Robyul-mod list. |
| `Permissions.BotAdminIsNukeModAndRobyulMod` | helpers/discord.go:24-88 | Every bot admin ID is also a nuke mod and passes the Robyul-mod check. |
| `Permissions.SomeHeldRolePasses` | helpers/discord.go:183-196 | The nested role loops succeed exactly when some guild role whose ID the member holds passes the test on its own. |
| `Permissions.IsAdminByID` | helpers/discord.go:168-198 | False when the guild does not resolve. Otherwise true exactly for the owner, a bot admin, or a member holding a guild role with the Administrator bit or an admin role name. A failed member lookup gives false. |
| `Permissions.HasPermissionByID` | helpers/discord.go:200-224 | True exactly for the owner of a resolvable guild, or a resolvable member holding one guild role whose bits include every requested bit. |
| `Permissions.CanInspectExtended` | helpers/discord.go:90-129 | Bot admins, Robyul mods and nuke mods pass. Anyone else passes exactly when the message's channel, its guild and the author's member resolve and the member holds a guild role whose ID is on the extended-inspect list. |
| `Permissions.UnresolvedGuildDeniesEveryone` | helpers/discord.go:168-284 | When the guild does not resolve, the admin, mod and permission checks all deny, bot admins included. |
| `Permissions.OwnerAndBotAdminAreAdmins` | helpers/discord.go:168-176 | On a resolvable guild the owner and every bot admin are admins. |
| `Permissions.OwnerHasEveryPermission` | helpers/discord.go:200-208 | The owner of a resolvable guild has every permission. |
| `Permissions.IsModByID` | helpers/discord.go:258-284 | True exactly for an admin of the guild, or, on a resolvable guild, a resolvable member holding a guild role named exactly as one of the mod role names. |
| `Permissions.IsAdmin` | helpers/discord.go:131-166 | True exactly when the message's channel resolves and the author is an admin, by the ID-based check, of that channel's guild. |
| `Permissions.IsMod` | helpers/discord.go:226-256 | True exactly when the message's channel resolves and the author is a mod, by the ID-based check, of that channel's guild. |
| `Permissions.AdminIsMod` | helpers/discord.go:258-260 | Every admin is a mod. |
| `Permissions.ModBeyondAdminHoldsModRole` | helpers/discord.go:258-284 | A mod who is not an admin holds a guild role named exactly as one of the mod role names. |
| `Permissions.PermissionSearchIgnoresNames` | helpers/discord.go:214-221 | The explicit-permission search depends only on role IDs and bits, never on role names. |
| `Permissions.PermissionIsNotUnionOfRoles` | helpers/discord.go:214-221 | Two held roles with bits {1} and {2} do not grant {1,2}: each role is tested on its own. |
| `Permissions.GetAllPermissions` | helpers/discord.go:563-578 | The result holds the bits of every `@everyone` role and of every guild role the member holds, and nothing more. It is the smallest set that covers them. |
| `Permissions.HeldRoleBitsAreEffective` | helpers/discord.go:563-578 | Any permission granted by one held role is contained in the effective permissions. |
| `Permissions.ModsScenario` | helpers/discord.go:168-284 | With roles `@everyone`{Send} and `Mods`{Send, Kick} and a member holding `Mods`: the member has Kick, is not an admin, and is a mod. |
| `Resolver.GetGuildStateFirst` | helpers/discord.go:430-438 | A usable state guild is returned as it is, whatever the API would answer. |
| `Resolver.GetGuildFallsBack` | helpers/discord.go:430-438 | A missing guild, or one with an empty ID, yields the API's answer, error included. |
| `Resolver.GetChannelStateFirst` | helpers/discord.go:440-448 | A usable state channel is returned without consulting the API. |
| `Resolver.GetChannelFallsBack` | helpers/discord.go:440-448 | A missing channel, or one with an empty ID, yields the API's answer. |
| `Resolver.GetGuildMemberStateFirst` | helpers/discord.go:407-415 | A state member with a guild ID and a join date is returned without consulting the API. |
| `Resolver.GetGuildMemberFallsBack` | helpers/discord.go:407-415 | A member with an empty guild ID or join date counts as missing; the API's answer is returned. |
| `Mentions.MentionID` | helpers/discord.go:464-466 | No ID when the text has no digit. Otherwise the ID is a non-empty digit run that starts at the first digit and is maximal. |
| `Mentions.MentionIDOfBracketedID` | helpers/discord.go:464-466 | `<#id>` and `<@id>` yield exactly `id`. |
| `Mentions.GetChannelFromMention` | helpers/discord.go:462-488 | No digits gives "Channel not found.". A success is the mentioned channel: a text channel on the same guild as the message's channel. A failed lookup of the message's channel, and then of the mentioned channel, returns that lookup's error. With both channels resolved, the error is "not a text channel" or "Channel on different guild.", in that order. |
| `Mentions.GetGlobalChannelFromMention` | helpers/discord.go:490-503 | No digits gives "Channel not found."; otherwise the result is the channel lookup of the ID. |
| `Mentions.GuildBoundMentionIsGlobalMention` | helpers/discord.go:462-503 | A channel accepted by the guild-bound lookup is what the global lookup returns. |
| `Decimal.FormatDecimal` | helpers/discord.go:614-619 | `%d` of a non-negative number is a non-empty digit string without a leading zero whose value is the number. |
| `Decimal.ParseInt64` | helpers/discord.go:557 | The text parses exactly when it is one or more ASCII digits after an optional '+' or '-' and spells a value in the int64 range; the result is that value. |
| `Decimal.ParseFormatRoundTrip` | helpers/discord.go:557 | Parsing the decimal text of any non-negative int64 gives the number back. |
| `Snowflake.GetTimeFromSnowflake` | helpers/discord.go:556-561 | A time exists exactly when the ID parses as an int64. |
| `Snowflake.SnowflakeTimeMonotone` | helpers/discord.go:556-561 | A larger snowflake never has an earlier creation second. |
| `Snowflake.SnowflakeRoundTrip` | helpers/discord.go:556-561 | A snowflake built from a millisecond time after the platform epoch, with any low 22 bits, yields that time's second. |
| `Avatars.GetAvatarUrlWithSize` | helpers/discord.go:608-620 | The URL is empty exactly when the user has no avatar. Otherwise it starts with the CDN prefix, the user ID, the avatar hash and a dot, and is exactly as long as that plus the extension, `?size=` and the size's digits. |
| `Avatars.AvatarUrlSuffix` | helpers/discord.go:608-620 | The URL ends in gif for an `a_` hash and jpg otherwise, followed by a size query that parses back to the requested size. |
| `Avatars.GetAvatarUrl` | helpers/discord.go:604-606 | The default URL is empty exactly when there is no avatar, and otherwise ends in `?size=1024`. |
| `Paging.Split` | helpers/discord.go:581 | With a non-empty delimiter there is at least one part, no part contains the delimiter, and each cut is at the leftmost occurrence: no occurrence ends inside a part followed by less than the whole delimiter after it. With an empty delimiter there is one part per character. |
| `Paging.JoinSplit` | helpers/discord.go:581 | Joining the parts of `strings.Split` with the delimiter gives back the text. |
| `Paging.FirstPartEmpty` | helpers/discord.go:581 | The first part is empty exactly when a non-empty delimiter starts the text. |
| `Paging.Pagify` | helpers/discord.go:579-602 | The loop computes the fold of its step over the parts. Every page is at most 1992 bytes long. |
| `Paging.PagifyFoldBounded` | helpers/discord.go:584-597 | Each loop step keeps the finished pages and the current page within 1992 bytes. |
| `Paging.ShortTextIsOnePage` | helpers/discord.go:579-602 | A non-empty text that fits on one page with a delimiter to spare, and does not start with the delimiter, comes back as exactly that page. |
| `Paging.LeadingDelimiterDropped` | helpers/discord.go:584-590 | As written, `",a"` paged on `","` comes back as `["a"]`. |
| `Paging.DelimitersOnlyGiveNoPages` | helpers/discord.go:584-601 | As written, `",,"` paged on `","` comes back as no page at all. |
| `Paging.OversizedSinglePartGivesEmptyPage` | helpers/discord.go:591-596 | As written, a single part longer than 1992 bytes is dropped and leaves one empty page. |
| `Paging.IntendedPagesBounded` | helpers/discord.go:579-602 | With the delimiter placed before every part but the first, every page is still at most 1992 bytes long. |
| `Paging.IntendedShortTextIsOnePage` | helpers/discord.go:579-602 | With that correction, every non-empty text that fits on one page comes back as exactly that page. |
| `Sessions.UserCacheKeyInjective` | helpers/discord.go:509 | Distinct user IDs have distinct cache keys. |
| `Sessions.CachedUserLivesTenMinutes` | helpers/discord.go:520-524 | An entry written at t0 is served before t0 + 600 s and never from then on. |
| `Sessions.ResolveMessage` | helpers/discord.go:450-460 | A usable state message is returned with no request. Otherwise the API's answer is returned after one request, and the only state change is that a fetched message is stored under its own channel and ID. |
| `Sessions.FetchedMessageIsRemembered` | helpers/discord.go:455-456 | After a successful fetch, the next lookup of the same message is served from the state with no request. |
| `Sessions.StateUser` | helpers/discord.go:511-516 | The state yields a user exactly when some guild's member carries one. It is the user of the first such guild in state order. |
| `Sessions.ResolveUser` | helpers/discord.go:505-535 | A lookup yields a user or an error. A request is sent exactly when neither the state nor a live cache entry has the user. The only cache change is the returned user stored under its key for 600 s, and only with the cache reachable. |
| `Sessions.StateUserNeedsNoRequest` | helpers/discord.go:511-516 | A user carried by a state member is returned with no request and no cache access, whatever the cache holds. |
| `Sessions.CachedUserNeedsNoRequest` | helpers/discord.go:518-519 | When the state has no such user, a live cache entry is returned with no request. |
| `Sessions.FetchedUserIsCachedTenMinutes` | helpers/discord.go:518-531 | A fetched user is written to the cache to expire after 600 s. Later lookups within that window send nothing; the first lookup after it fetches again. |
| `Sessions.FailedFetchCachesNothing` | helpers/discord.go:518-531 | A failed fetch returns its error and leaves the cache unchanged. |
| `Sessions.UnreachableCacheReportsWithUser` | helpers/discord.go:520-531 | With the cache unreachable, a fetched user is returned together with the cache's error, and the cache is unchanged. |
| `Sessions.LastRoleNamed` | helpers/discord.go:376-382 | No role is found exactly when no role has the name; otherwise the one found is the last role with the name. |
| `Sessions.FindRoleNamed` | helpers/discord.go:376-382 | The role loop finds the last role with the configured name. |
| `Sessions.DenyInChannels` | helpers/discord.go:392-397 | One SendMessages deny per channel, in channel order. |
| `Sessions.ProvisionMuteRole` | helpers/discord.go:372-405 | A role is created exactly when the guild resolves and none of its roles has the configured name. A failed provisioning sends no channel overwrite. |
| `Sessions.ExistingMuteRoleIsReused` | helpers/discord.go:372-383 | When a role has the name, the last such role is returned. Nothing is created, edited or overwritten. |
| `Sessions.CreatedMuteRoleIsDeniedEverywhere` | helpers/discord.go:383-404 | Otherwise the requests are exactly: the guild lookup if any, one create, one edit of the created role to the configured name and no permissions keeping its color, hoist and mentionable flags, then one SendMessages deny per channel for the edited role. The result is the edited role. |
| `Sessions.CreateFailureStops` | helpers/discord.go:384-387 | A failed create returns its error, and nothing is sent after the create. |
| `Sessions.EditFailureStops` | helpers/discord.go:388-391 | A failed edit returns its error, and no overwrite is sent. |
| `Sessions.ProvisionMuteRoleIdempotent` | helpers/discord.go:372-405 | Once the state's guild lists the returned role, and that role carries the configured name, provisioning again returns the same role and sends nothing. |
| `Sessions.ReusedMuteRoleIsNamed` | helpers/discord.go:376-382 | A reused role always carries the configured name. |
| `Sessions.ConfirmTick` | helpers/discord.go:349-369 | One poll confirms exactly when the author reacted with the confirm emoji. It aborts exactly when they did not but reacted with the abort emoji. |
| `Sessions.Session.GetMessage` | helpers/discord.go:450-460 | Returns `ResolveMessage`'s answer, stores its state, and appends its requests to the log. The cache is untouched. |
| `Sessions.Session.GetUser` | helpers/discord.go:505-535 | The state scan, cache read, fetch and cache write return `ResolveUser`'s answer and leave its cache and log. The gateway state is untouched. |
| `Sessions.Session.GetUserFromMention` | helpers/discord.go:537-545 | No digits gives an empty user with "User not found." and changes nothing. Otherwise it is the user lookup of the mentioned ID. |
| `Sessions.Session.DenyInAllChannels` | helpers/discord.go:392-397 | Appends one SendMessages deny per channel, in channel order, to the log. The state and the cache are untouched. |
| `Sessions.Session.GetMuteRole` | helpers/discord.go:372-405 | Returns `ProvisionMuteRole`'s result and appends its calls to the log. The state and the cache are untouched. |
| `Facebook.ReversedAt` | modules/plugins/facebook.go:85-89 | Reversal keeps the length and moves the element at i to n-1-i. |
| `Facebook.ReversedTwice` | modules/plugins/facebook.go:85-89 | Reversing twice restores the original order. |
| `Facebook.ReversePosts` | modules/plugins/facebook.go:85-89 | The swap loop leaves the array holding the reversal of its old contents. |
| `Facebook.ScanPosted` | modules/plugins/facebook.go:92-97 | The inner scan finds the ID exactly when a recorded post carries it. |
| `Facebook.AppendNewPosts` | modules/plugins/facebook.go:91-104 | The loop computes the append-if-unseen fold and announces the posts that fold appends. The appended entries are the announced posts' records, in order, and `changes` holds exactly when one was announced. |
| `Facebook.CheckPage` | modules/plugins/facebook.go:79-108 | One poll reverses the posts in place. The announced posts are exactly the reversed (oldest-first) posts whose ID is neither recorded nor carried by an earlier post, in that order. The records gain one entry per announced post, in order, and the entry is saved exactly when something was announced. |
| `Facebook.AppendUnpostedIsAnnounced` | modules/plugins/facebook.go:91-101 | The records afterwards are the old records followed by the records of the announced posts. |
| `Facebook.AlreadyPostedAfter` | modules/plugins/facebook.go:91-101 | An ID is recorded afterwards exactly when it was recorded before or some fetched post carries it. |
| `Facebook.UnpostedSnoc` | modules/plugins/facebook.go:91-101 | One more fetched post is announced exactly when its ID is not recorded by the time it is checked. |
| `Facebook.UnpostedIsKeepUnseen` | modules/plugins/facebook.go:91-101 | The announced posts are exactly those the reference filter keeps: a fetched post whose ID is neither recorded nor carried by an earlier fetched post, in fetched order. |
| `Facebook.UnpostedIsNewAndDistinct` | modules/plugins/facebook.go:91-101 | No announced post has a recorded ID, and no two announced posts share an ID, whatever was recorded before. |
| `Facebook.AppendedRecordsAreDistinct` | modules/plugins/facebook.go:91-101 | The appended records carry distinct IDs, none recorded before, so a post fetched twice is recorded once. |
| `Facebook.AppendUnpostedExtends` | modules/plugins/facebook.go:91-101 | The check is append-only: recorded posts keep their places and values. |
| `Facebook.AppendUnpostedFromFetched` | modules/plugins/facebook.go:91-101 | Every appended entry is the (ID, time) pair of a fetched post. |
| `Facebook.AppendUnpostedCovers` | modules/plugins/facebook.go:91-101 | Afterwards every fetched post's ID is recorded. |
| `Facebook.AppendUnpostedNoop` | modules/plugins/facebook.go:91-108 | When every fetched ID is already recorded, nothing is appended (so nothing is saved). |
| `Facebook.AppendUnpostedIdempotent` | modules/plugins/facebook.go:91-101 | Running the check again on the same posts appends nothing. |
| `Facebook.AppendUnpostedKeepsDistinct` | modules/plugins/facebook.go:93-102 | Recorded IDs that are distinct stay distinct, so an ID fetched twice in one batch is recorded once. |
| `Facebook.PostedFromFetched` | modules/plugins/facebook.go:154-165 | The new entry's records are the fetched posts' (ID, time) pairs, in fetched order. |
| `Facebook.AddedPageHasNothingNew` | modules/plugins/facebook.go:154-165 | A page just added announces nothing when the same posts are fetched at the next poll. |

## Left out

- `ConfirmEmbed`: sending the prompt, adding the reactions, the once-a-second polling loop and the deletion of the prompt are network I/O and an unbounded wait. Only one poll's decision is modelled (`ConfirmTick`).
- `RequireAdmin`, `RequireMod`, `RequireBotAdmin`, `RequireRobyulMod`: they only send messages around the checks that are modelled.
- `WebhookExecuteWithResult` (raw HTTP and JSON) and `CommandExists` (plugin lists in a cache package that is not part of this model) are left out.
- `GetDiscordColorFromHex`: arbitrary-precision hex parsing and int64 truncation are not modelled.
- `GetIsInGuild` and `GetGuildMemberWithoutApi` are not separate members. Their test is `Sessions.MemberCarriesUser` on the state map.
- `GetMuteRole`: a failure to load the guild settings is not modelled. The configured mute-role name is a parameter.
- `GetMuteRole`: the answers to the per-channel overwrites are not part of the model. The code only logs a failed one, and logging is not modelled.
- ProvisionMuteRoleIdempotent: stated only when the returned role carries the configured name. If the edit answers with a role of another name, the next call creates a role again.
- `Sessions.Session.GetMessage`: storing a fetched message follows the library's `MessageAdd` only in outline. The model does not capture that the channel must be in the state, the merge into an existing message, or the message-count limit. After a failed fetch the source passes the nil result to `MessageAdd` before it looks at the error, which in the library reads the message's fields; the model returns the fetch error instead and stores nothing.
- `Mentions.GetChannelFromMention`: on "not a text channel" and "Channel on different guild." the Go function also returns the target channel beside the error. The model returns only the error.
- The gateway state is a value read in one step. Its concurrent mutation by the event stream is not modelled. Nor are the locking inside the library's state, logging, and error reporting to the crash service.
- The cache is a map with an expiry per entry. Its serialisation, and decode failures on read, are not modelled. An unreachable cache fails every read and write.
- Guild lookups inside the permission checks are pure functions. Only the session methods record the requests they send.
- Strings are sequences of single-byte characters. Multi-byte UTF-8 text in `Pagify` and in `strings.Split` with an empty delimiter is not modelled.
- `modules/plugins/facebook.go` outside the de-duplication step is left out. That covers database access, Graph API lookups and their error codes, posting embeds, and the ten-minute polling goroutine.
- `plugins/vlive.go`, `modules/modules.go`, `metrics/metrics.go`, `migrations/47_create_elastic_index_leaves.go` and `models/elastic.go` are not part of this model. They hold HTTP/JSON fetching, a static registry, counters and storage I/O, with no core logic.

## Findings

| source | as written | input that shows it | evidently intended | confidence | as-written member | corrected member |
|---|---|---|---|---|---|---|
| helpers/discord.go:584-590 | The delimiter goes in front of a part only when the current page or the result is non-empty. Empty leading parts therefore swallow their delimiters. | `Pagify(",a", ",")` returns `["a"]`, and a text made only of delimiters returns `[]` | The delimiter goes before every part but the first, so a text that fits on one page comes back unchanged | medium; not executed | `Paging.LeadingDelimiterDropped` | `Paging.IntendedShortTextIsOnePage` |
