# TheAether guild tables and guild sync, in Dafny

TheAether is a Discord bot that mirrors the state of Discord guilds into a local
store. This project models four of its files.

- **rooms.go.** The `Rooms` table of `Room` records, keyed by ID.
- **guilds.go.** The `GuildsManager` table of `GuildRecord`s. It has:
  - duplicate-free adders for `RoleIDs` and `UserIDs`, and removers that drop
    the first occurrence;
  - a setter and a getter for each role field;
  - `RegisterGuild`.
- **guilds_handler.go.** The reconciliation pass `SyncGuild`, its driver
  `SyncCluster`, and the `sync` branch of `ParseCommand` that guards both with
  the `syncinprogress` flag.
- **util.go.**
  - Slice helpers, which work in place on the caller's backing array.
  - `CleanChannel` and `truncateString`.
  - The `time.Duration` helpers `TruncateTime` and `RoundTime`, on int64 with
    Go's truncating `%` and wrap-around written out.
  - The first-match role and channel lookups.

Each table is a class holding a `map` from ID to record. Its methods mutate the
map and are proved against small functions (`Saved`, `RemovedByID`, `AddAll`,
`Refreshed`, `Registered`). Where the storage layer returns every record in some
order, the model returns some enumeration of the map, described by
`IsRoomListing` / `IsGuildListing`.

The Discord session is the value `SyncSpec.Remote`. It holds:
- the answers to `s.Guild`, `s.GuildRoles` and `s.GuildChannels`;
- oracle functions for `SyncRoom`, `GuildChannelCreate`, `ChannelEditComplex`
  and `RepairUser`.

`SyncSpec` states the whole pass as functions of the room snapshot the pass
takes. `GuildSync.GuildsHandler.SyncGuild` is proved equal to them, loop by loop.
The model keeps these behaviours of the code:
- the channel search reads the stale snapshot, not the live table;
- every same-named channel acts in turn, since the channel loop has no `break`;
- rebinding a room upserts it under the new ID and leaves the old record in place;
- the user repair loop runs again for every guild member.

`Room` in rooms.go has no `GuildID` field, yet guilds_handler.go:315 and :326
read `room.GuildID`. The model's `Room` carries `GuildID` as an attribute.

Modules:
- `Wrappers`: `Option`, `Result`, `Outcome`.
- `Text`: string helpers and ASCII `strings.Title`.
- `Slices`: the slice helpers.
- `Durations`: the duration helpers.
- `Discord`: the value types the session returns.
- `Lookups`: the util.go lookups.
- `RoomRecords`, `GuildRecords`: the two tables.
- `SyncSpec`: the pass as functions.
- `GuildSync`: the handler.

## Model

| member | source | states |
|---|---|---|
| RoomRecords.Saved | rooms.go:59-66 | the save is an upsert: the room is stored under its ID, every other key keeps its record, and a table keyed by ID stays keyed by ID |
| RoomRecords.RemovedByID | rooms.go:77-90 | fails with "No record found" exactly when the ID is absent; otherwise removes exactly that key and keeps every other record |
| RoomRecords.RemoveUndoesFreshSave | rooms.go:59-90 | removing by ID right after saving a new room gives back the table as it was |
| RoomRecords.Rooms.constructor | rooms.go:8-11 | a new table is empty and keyed by ID |
| RoomRecords.Rooms.SaveRoomToDB | rooms.go:59-66 | the new table is `Saved(old, room)` |
| RoomRecords.Rooms.RemoveRoomFromDB | rooms.go:68-75 | removes the room's key; a room that is not stored fails with the store's "not found" and leaves the table alone |
| RoomRecords.Rooms.RemoveRoomByID | rooms.go:77-90 | fails with "No record found" and changes nothing when the ID is absent; otherwise the new table is `RemovedByID(old, roomID)` |
| RoomRecords.Rooms.GetRoomByID | rooms.go:92-106 | returns the stored room with that ID, or "No record found" |
| RoomRecords.Rooms.GetAllRooms | rooms.go:110-121 | returns every stored room exactly once (one entry per key, IDs distinct) |
| GuildRecords.NewRecord | guilds.go:381 | a fresh record has the guild's ID and name and no roles or users |
| GuildRecords.AppendIfAbsent | guilds.go:124-145 | the role/user add: the value is then present; if it already was, nothing changes; otherwise it is appended at the end; no duplicate is introduced |
| GuildRecords.AppendIfAbsentIdempotent | guilds.go:124-145 | adding the same value twice is the same as adding it once |
| GuildRecords.AddAllSpec | guilds_handler.go:408-419 | a run of adds keeps the old list as a prefix, contains every added value, brings in nothing else, and keeps the list duplicate-free |
| GuildRecords.AddAllPresent | guilds.go:124-145 | adding values that are all present already changes nothing |
| GuildRecords.WithRoleID | guilds.go:232-290 | a setter changes exactly its one role field; ID, name, role and user lists and the other three role fields are unchanged |
| GuildRecords.WithRoleIDLaws | guilds.go:232-290 | setting a field to its current value changes nothing; of two sets of the same field the last one wins |
| GuildRecords.Refreshed | guilds_handler.go:271-304 | copies name, owner, AFK channel, AFK timeout and icon from the remote guild; resolves Admin, then Builder, then Moderator, then @everyone, and fails with the first failed lookup's error; ID, region, RoleIDs and UserIDs are unchanged |
| GuildRecords.Registered | guilds.go:370-446 | an already-stored guild gives nil and no write; a remote or role-resolution error gives that error and leaves the table unchanged; on success exactly the new key is added |
| GuildRecords.RegisteredRecord | guilds.go:376-436 | the new record is stored under the guild's ID; its RoleIDs are exactly the remote role IDs and its UserIDs exactly the members, both duplicate-free; its Admin and @everyone IDs are remote role IDs |
| GuildRecords.GuildsManager.constructor | guilds.go:11-17 | a new table is empty and keyed by ID |
| GuildRecords.GuildsManager.SaveGuildToDB | guilds.go:42-49 | the record is upserted under its ID |
| GuildRecords.GuildsManager.RemoveGuildFromDB | guilds.go:51-58 | removes the record's key; an unstored record fails with the store's "not found" and changes nothing |
| GuildRecords.GuildsManager.RemoveGuildByID | guilds.go:60-73 | removes exactly that key; an absent ID fails with "No guild record found" and changes nothing |
| GuildRecords.GuildsManager.GetGuildByID | guilds.go:75-89 | returns the record with that ID, or "No guild record found" |
| GuildRecords.GuildsManager.GetGuildByName | guilds.go:91-105 | returns the record stored under `guildID` when its name matches, otherwise "No guild record found" |
| GuildRecords.GuildsManager.GetAllGuilds | guilds.go:109-120 | returns every stored record exactly once |
| GuildRecords.GuildsManager.AddRoleToGuild | guilds.go:124-145 | a missing guild fails with "No guild record found"; otherwise `RoleIDs` becomes `AppendIfAbsent(RoleIDs, roleID)`, nothing else changes, and a present role leaves the table as it was |
| GuildRecords.GuildsManager.RemoveRoleFromGuild | guilds.go:147-161 | a missing guild fails; otherwise only the first occurrence of the role is dropped, and nothing else changes |
| GuildRecords.GuildsManager.AddUserToGuild | guilds.go:191-212 | as AddRoleToGuild, on `UserIDs` |
| GuildRecords.GuildsManager.RemoveUserFromGuild | guilds.go:214-228 | as RemoveRoleFromGuild, on `UserIDs` |
| GuildRecords.GuildsManager.IsGuildRegistered | guilds.go:165-178 | true exactly when a record with that ID is stored |
| GuildRecords.GuildsManager.SetRoleID | guilds.go:232-290 | a missing guild fails and nothing changes; otherwise only the one role field of that one record changes |
| GuildRecords.GuildsManager.SetAdminID | guilds.go:232-245 | only `AdminID` of that record changes; a missing guild fails with "No guild record found" |
| GuildRecords.GuildsManager.SetModeratorID | guilds.go:247-260 | only `ModeratorID` of that record changes; a missing guild fails |
| GuildRecords.GuildsManager.SetBuilderID | guilds.go:262-275 | only `BuilderID` of that record changes; a missing guild fails |
| GuildRecords.GuildsManager.SetEveryoneID | guilds.go:277-290 | only `EveryoneID` of that record changes; a missing guild fails |
| GuildRecords.GuildsManager.GetRoleID | guilds.go:295-326 | the stored role field of that record, or "No guild record found" |
| GuildRecords.GuildsManager.GetGuildAdminID | guilds.go:295-301 | the stored `AdminID`, or "No guild record found" |
| GuildRecords.GuildsManager.GetGuildModeratorID | guilds.go:304-310 | the stored `ModeratorID`, or "No guild record found" |
| GuildRecords.GuildsManager.GetGuildBuilderID | guilds.go:312-318 | the stored `BuilderID`, or "No guild record found" |
| GuildRecords.GuildsManager.GetGuildEveryoneID | guilds.go:320-326 | the stored `EveryoneID`, or "No guild record found" |
| GuildRecords.GuildsManager.GetGuildDiscordAdminID | guilds.go:329-335 | the ID of the first remote role named "Admin", or the lookup's error |
| GuildRecords.GuildsManager.GetGuildDiscordModeratorID | guilds.go:337-343 | the ID of the first remote role named "Moderator", or the lookup's error |
| GuildRecords.GuildsManager.GetGuildDiscordBuilderID | guilds.go:345-351 | the ID of the first remote role named "Builder", or the lookup's error |
| GuildRecords.GuildsManager.GetGuildDiscordEveryoneID | guilds.go:353-366 | the ID of the first remote role named "@everyone", or the lookup's error |
| GuildRecords.GuildsManager.RefreshRecord | guilds_handler.go:271-304 | the overwrite-and-resolve step equals `Refreshed` |
| GuildRecords.GuildsManager.AddRolesToGuild | guilds_handler.go:408-413 | the role loop leaves `RoleIDs` equal to `AddAll(old RoleIDs, ids)` and changes nothing else |
| GuildRecords.GuildsManager.AddUsersToGuild | guilds.go:431-436 | the member loop of RegisterGuild leaves `UserIDs` equal to `AddAll(old UserIDs, ids)` and changes nothing else |
| GuildRecords.GuildsManager.SaveWithRolesAndUsers | guilds.go:418-436 | saving the record and then adding the roles and members gives the record with both lists extended |
| GuildRecords.GuildsManager.RegisterGuild | guilds.go:370-446 | the error and the new table are exactly `Registered(old, guildID, guild, roles)` |
| GuildRecords.RemoveFromList | util.go:28-35 | the removal on a record's list equals `RemoveFirst` |
| Slices.FirstIndex | util.go:29-33 | the index of the first element equal to `r`, or the length when there is none |
| Slices.RemoveFirst | util.go:28-35 | unchanged when `r` is absent; otherwise exactly the first element equal to `r` is dropped and the order kept |
| Slices.RemoveFirstMultiset | util.go:28-35 | removal takes away one copy of `r` and nothing else |
| Slices.RemoveFirstOfDistinct | util.go:28-35 | on a duplicate-free list the value is gone afterwards, so removing it again changes nothing |
| Slices.RemoveStringFromSlice | util.go:28-35 | the new length drops by one exactly when `r` occurs; the array's prefix is `RemoveFirst` of the old slice; slots past it keep their values |
| Slices.ShiftDown | util.go:31 | `append(s[:i], s[i+1:]...)` moves the tail one slot down in the same array |
| Slices.SplitPayload | util.go:79-87 | the command is the first word and the message is the words after it, written over the front of the caller's array |
| Slices.GetArgumentAndFlags | util.go:90-98 | the argument is the second word and the flags are the words after it; after the two in-place removals the caller's array holds its old last element in the two slots after the flags, and its old tail beyond |
| Slices.SwapRemove | util.go:101-104 | one shorter than the input |
| Slices.SwapRemoveMultiset | util.go:101-104 | the swap-and-truncate removes exactly one copy of `s[i]` |
| Slices.RemoveFromString | util.go:101-104 | swaps slot `i` with the last slot in place and returns the shortened slice |
| Text.ContainsIffOccurs | guilds_handler.go:322 | the substring test holds exactly when the text occurs at some index |
| Text.TrimPrefix | util.go:117 | drops the prefix when present, otherwise returns the string |
| Text.TrimSuffix | util.go:118 | drops the suffix when present, otherwise returns the string |
| Text.CleanChannelOfMention | util.go:115-130 | `CleanChannel` inverts the channel mention `"<#" + id + ">"` |
| Text.CleanChannelOfPlain | util.go:115-121 | a string without mention brackets is returned unchanged |
| Text.TruncateString | util.go:288-297 | short strings are unchanged; longer ones keep `num - 3` characters (or `num` when `num <= 3`) followed by "..." |
| Text.JoinedAppend | util.go:107-112 | joining two lists is joining each and concatenating |
| Text.JoinedLength | util.go:107-112 | the joined length is the sum of the lengths plus one separator per element |
| Text.SliceToString | util.go:107-112 | the accumulated string is every element followed by the separator |
| Text.TitleAfter | util.go:348 | title-casing keeps the length |
| Text.TitleOfCapitalisedWord | util.go:348 | a capitalised word of letters is its own title case |
| Text.TitleAfterWordTail | util.go:348 | letters after a letter are left as they are |
| Durations.GoRem | util.go:250-267 | Go's `%`: smaller than the divisor in magnitude, with the dividend's sign, leaving a multiple |
| Durations.Wrap | util.go:273-281 | int64 wrap-around: equal to its argument in range, and congruent modulo 2^64 |
| Durations.TruncateTime | util.go:250-255 | `d` when `m <= 0`; otherwise a multiple of `m`, no larger than `d` in magnitude, less than `m` from it, never of the opposite sign |
| Durations.TruncateTimeBrackets | util.go:248-255 | the result is the multiple of `m` next to `d` on the side of zero |
| Durations.RoundTimeNearest | util.go:257-285 | the corrected rounding returns the nearest multiple of `m`, halfway values away from zero, saturating to the int64 bounds exactly when that multiple does not fit |
| Durations.NearestMultipleUnique | util.go:257-262 | the nearest multiple with that tie rule is unique |
| Durations.RoundTimeAsWrittenAgreesBelow2To62 | util.go:263-285 | the code as written agrees with the corrected one for every `m <= 2^62` |
| Durations.RoundTimeAsWrittenWrapsAround | util.go:267-278 | for d = 2^63 - 2 and m = 2^63 - 1 the code as written returns 0, which is not the nearest multiple; the corrected one returns m |
| Discord.IDs | guilds_handler.go:408-409 | the IDs of a role or member list, in order |
| Lookups.IndexOfName | util.go:336-340 | the index of the first entry with that name, or the length |
| Lookups.IndexOfID | util.go:371-376 | the index of the first entry with that ID, or the length |
| Lookups.LastIDNamed | guilds_handler.go:368-373 | the ID of the last channel with that name, or "" when there is none |
| Lookups.RoleIDByName | util.go:346-361 | found exactly when a role has the title-cased name; then the first such role's ID; otherwise "Role ID Not Found: " and the title-cased name |
| Lookups.EveryoneRoleID | util.go:311-326 | the first "@everyone" role's ID, or "Everyone Role ID Not Found" |
| Lookups.ChannelIDByName | util.go:329-343 | the first channel with that name, or "Channel ID Not Found: " and the name |
| Lookups.RoleNameByID | util.go:364-379 | the first role with that ID's name, or "Role <id> not found in guild <guild>" |
| Lookups.WellKnownLabelsAreTitled | util.go:348 | title-casing leaves "Admin", "Builder" and "Moderator" unchanged |
| Lookups.GetGuildEveryoneRoleID | util.go:311-326 | passes the roles error through, otherwise equals `EveryoneRoleID` |
| Lookups.GetGuildChannelIDByName | util.go:329-343 | passes the channels error through, otherwise equals `ChannelIDByName` |
| Lookups.GetRoleIDByName | util.go:346-361 | passes the roles error through, otherwise equals `RoleIDByName` |
| Lookups.GetRoleNameByID | util.go:364-379 | passes the roles error through, otherwise equals `RoleNameByID` |
| SyncSpec.GuildChannels | guilds_handler.go:326-329 | the remote channel list followed by the channels created so far in the pass, or the remote error |
| SyncSpec.SearchDistinct | guilds_handler.go:338-349 | on a snapshot with distinct IDs the search finds the channel exactly when a snapshot room holds its ID; then it deletes the current room, or fails with "No record found" when that room is gone; otherwise nothing changes |
| SyncSpec.ChannelStep | guilds_handler.go:334-363 | a channel with another name changes nothing; a same-named one marks the room matched and keeps its name |
| SyncSpec.ScanChannels | guilds_handler.go:333-364 | the loop copy of the room keeps its name |
| SyncSpec.Recreate | guilds_handler.go:367-400 | a creation error aborts with no change; otherwise the channel is created with the room's name, moved under the parent, and the room saved under the new ID |
| SyncSpec.RepairRoom | guilds_handler.go:316-403 | a room whose probe passes is untouched; an error without "Unknown Channel" aborts with "Error syncing room: <ID>: <Name> - <err>" |
| SyncSpec.OfGuild | guilds_handler.go:315 | the rooms of the guild, and only those |
| SyncSpec.RepairRoomsOnlyOwnGuild | guilds_handler.go:312-315 | the pass behaves as if only the guild's own rooms were listed |
| SyncSpec.RepairRoomsOtherGuilds | guilds_handler.go:312-315 | when no listed room belongs to the guild, the room loop changes nothing and passes |
| SyncSpec.SearchKeepsOthers | guilds_handler.go:338-349 | the snapshot search deletes only the current room, so the other guilds' records stay exactly as they were |
| SyncSpec.ChannelStepKeepsOthers | guilds_handler.go:334-363 | a channel turn writes only a room of the guild, under a channel ID of the guild, and keeps the other guilds' records |
| SyncSpec.ScanKeepsOthers | guilds_handler.go:333-364 | the channel loop over the guild's channels keeps the other guilds' records, and the loop copy stays a room of the guild |
| SyncSpec.GuildChannelsOwn | guilds_handler.go:326-329 | every channel GuildChannels answers during the pass has an ID of the guild's own |
| SyncSpec.RecreateKeepsOthers | guilds_handler.go:367-400 | the recreated room is saved under the new channel's ID, which is the guild's own, so other guilds' records are kept |
| SyncSpec.RepairRoomKeepsOthers | guilds_handler.go:316-404 | probing one room of the guild keeps the other guilds' records, and every channel it creates has an ID of the guild's own |
| SyncSpec.RepairRoomsKeepOthers | guilds_handler.go:312-406 | the room loop neither deletes, changes nor adds a record of another guild: their records after the loop are exactly those before it |
| SyncSpec.ListedRoomsOwnKeys | guilds_handler.go:256 | a room of the guild in the listing is stored under its ID, so its ID is not another guild's key |
| SyncSpec.SyncKeepsOtherGuildsRooms | guilds_handler.go:242-442 | a whole pass over a listing of the table leaves the rooms of other guilds exactly as they were, as long as Discord's channel IDs are unique across guilds |
| SyncSpec.SyncAfterRefreshKeepsOthers | guilds_handler.go:312-440 | the same, for the part of the pass after the record is saved |
| SyncSpec.RepairRoomsAbortIsFinal | guilds_handler.go:312-406 | after the first error no later room is looked at |
| SyncSpec.ScanWithoutMatch | guilds_handler.go:333-364 | channels with other names do not affect the scan |
| SyncSpec.ScanSingleMatch | guilds_handler.go:333-364 | with one same-named channel the scan is that channel's step |
| SyncSpec.ScanNoMatch | guilds_handler.go:333-367 | with no same-named channel nothing is changed and the room is unmatched |
| SyncSpec.DuplicateCase | guilds_handler.go:333-349 | if the same-named channel's ID is held by a snapshot room, the current room's record is deleted and nothing else changes |
| SyncSpec.RebindCase | guilds_handler.go:351-362 | if no snapshot room holds it, the room is upserted under the channel's ID and no key is removed |
| SyncSpec.RecreateCase | guilds_handler.go:367-400 | with no same-named channel a channel is created under the last "The Aether" channel, or "" when there is none, and the room is saved under its ID |
| SyncSpec.TwoSameNamedChannels | guilds_handler.go:333-364 | without a `break`, two unbound same-named channels rebind the room twice, the second time from the first new ID |
| SyncSpec.UserRepairsCalls | guilds_handler.go:426-434 | every repair for a user targets that user's own room; when no repair failed, the user was repaired exactly when its room is one of the guild's channels |
| SyncSpec.UsersRepairsCalls | guilds_handler.go:421-437 | repairs go only to users of the guild that are in a room, each for its own room; when no repair failed, every such user whose room is a channel of the guild was repaired |
| SyncSpec.Repeat | guilds_handler.go:415-438 | n copies of a list |
| SyncSpec.MemberLoopRepeats | guilds_handler.go:415-438 | the member loop adds every member and repeats the whole user repair once per member |
| SyncSpec.SyncGuildSpec | guilds_handler.go:242-442 | a Guild error, a missing record, a GuildRoles error or a failed role resolution each aborts with that error before any write, creation or repair; the pass keeps the guild keys and changes only the synced guild's record |
| SyncSpec.SyncAfterRefresh | guilds_handler.go:306-440 | after the save only the synced guild's record changes, and it keeps its ID |
| SyncSpec.SyncAddsRolesAndMembers | guilds_handler.go:408-419 | after a successful pass every remote role ID and member ID is stored, nothing previously there has gone, and the repairs are the user loop's once per member |
| SyncSpec.SyncAfterRefreshAdds | guilds_handler.go:408-438 | the same, for the part of the pass after the record is saved |
| SyncSpec.SyncAllSpec | guilds_handler.go:219-236 | one pass per listed guild in turn, each on the tables the earlier passes left; the result is nil, the guild keys are kept, unlisted guilds are untouched, and the logs only grow |
| SyncSpec.SyncAllSpecStep | guilds_handler.go:229-234 | one more listed guild is one more pass after the others, and its snapshot lists the table as the others left it |
| GuildSync.GuildIDs | guilds_handler.go:230-233 | the IDs of a guild listing, in order |
| GuildSync.GuildsHandler.constructor | guilds_handler.go:29-32 | the flag starts cleared |
| GuildSync.GuildsHandler.SearchSnapshot | guilds_handler.go:338-349 | the search loop over the snapshot equals `Search` |
| GuildSync.GuildsHandler.ScanChannelLoop | guilds_handler.go:333-364 | the channel loop equals `ScanChannels` |
| GuildSync.GuildsHandler.RecreateRoom | guilds_handler.go:367-400 | the parent search and creation equal `Recreate` under the last "The Aether" channel |
| GuildSync.GuildsHandler.RepairRoomBody | guilds_handler.go:316-404 | the body for one room equals `RepairRoom` |
| GuildSync.GuildsHandler.RoomLoop | guilds_handler.go:312-406 | the room loop equals `RepairRooms` over the snapshot |
| GuildSync.GuildsHandler.UserRepairLoop | guilds_handler.go:426-435 | the channel loop of one user equals `UserRepairs` |
| GuildSync.GuildsHandler.UsersRepairLoop | guilds_handler.go:421-437 | the user loop equals `UsersRepairs` |
| GuildSync.GuildsHandler.MemberLoopRun | guilds_handler.go:415-440 | the member loop equals `MemberLoop` and touches only the guild's `UserIDs` |
| GuildSync.GuildsHandler.SyncGuild | guilds_handler.go:242-442 | the snapshot is a listing of the room table; the error, both tables, the created channels and the repairs equal `SyncGuildSpec` |
| GuildSync.GuildsHandler.SyncRefreshed | guilds_handler.go:312-440 | the part after the save equals `SyncAfterRefresh` |
| GuildSync.GuildsHandler.AddRolesAndMembers | guilds_handler.go:408-440 | roles are added, then the member loop runs on the saved record |
| GuildSync.GuildsHandler.SyncCluster | guilds_handler.go:219-236 | one SyncGuild per stored guild in listing order, each with that guild's session answers; the room table, guild table, created channels and repairs equal `SyncAllSpec` over the listing; each snapshot lists the table as the earlier passes left it; errors are dropped and the result is nil |
| GuildSync.GuildsHandler.SyncNext | guilds_handler.go:229-234 | one turn of the cluster loop extends the `SyncAllSpec` state and the call log by that guild |
| GuildSync.GuildsHandler.SyncClusterCommand | guilds_handler.go:101-132 | while a sync runs nothing is synced and the reply is the in-progress error; otherwise a confirmed command syncs every guild, leaving the tables as `SyncAllSpec` gives them; the guild keys are kept; the flag is released on return |
| GuildSync.GuildsHandler.SyncGuildCommand | guilds_handler.go:134-174 | only a registered guild is synced, not while a sync runs, and the flag is released on both the error and the success return; the guild keys are kept |
| GuildSync.GuildsHandler.ParseCommand | guilds_handler.go:81-179 | the flag ends as it started; no sync starts while it is set; only the confirmed cluster or guild command syncs anything; the guild keys are kept |
| GuildSync.SearchPrefixFailure | guilds_handler.go:343-346 | a failed delete returns at once: the rest of the snapshot is not searched |
| GuildSync.ScanPrefixFailure | guilds_handler.go:343-360 | an error inside the channel loop returns at once |
| GuildSync.UserRepairsPrefixFailure | guilds_handler.go:430-433 | a failed repair returns at once |
| GuildSync.UsersRepairsPrefixFailure | guilds_handler.go:421-437 | a failed repair ends the user loop |
| GuildSync.MemberLoopPrefixFailure | guilds_handler.go:415-438 | a failed repair ends the member loop |

## Left out

- Storage never fails. The storm store is a map, so these failures are not modelled: listing errors, save errors, `ErrZeroID` and lock failures.
- Because of that, the branch of RegisterGuild that returns a lookup error other than "No guild record found" (guilds.go:440-442) cannot be reached.
- The error checks after AddRoleToGuild and AddUserToGuild inside SyncGuild and RegisterGuild cannot fail either, because the record was saved just before.
- SyncCluster's error return (guilds_handler.go:225-227, 120-123) is unreachable for the same reason, so ParseCommand's "Error syncing cluster" reply is not modelled.
- Listing order: `GetAllRooms` and `GetAllGuilds` return some enumeration of the table. storm's key order is not modelled.
- The Discord session: every session call is an input. Within one SyncGuild call, `s.Guild`, `s.GuildRoles` and `s.GuildChannels` each have one fixed answer.
  - Each role resolution of the pass therefore sees the same role list.
  - `GuildChannels` answers the base list followed by the channels this pass has created.
- The created channel's ID depends only on the requested name. `ChannelEditComplex` keeps the channel's ID.
- SyncSpec.SyncKeepsOtherGuildsRooms: Discord channel IDs are unique across guilds, but the session oracles do not say so. The property is proved under the hypothesis `ChannelIDsOwn`: no channel of the guild, listed or created, carries another guild's room ID. Without it, a created channel could reuse another guild's room key, and the save would overwrite that room.
- `SyncRoom` and `RepairUser` are oracles. Their effects on Discord and on the user store are not modelled.
- The user store is the `users` input. `GetAllUsers` and its errors are not modelled, and the list is the same for every guild of a SyncCluster run.
- Locks, `time.Sleep` pacing and `time.Since` are not modelled. The reply texts leave out the elapsed time.
- ParseCommand: the `info` and `cluster` reports (GuildInfo, ClusterInfo) are not modelled, and neither are the message plumbing (`Read`, `RegisterCommands`, `SafeInput`, `CheckPermissions`, `CleanCommand`'s `strings.Trim`).
- `getGuildID` is an input. `IsGuildIDValid` answers false on every path and is left out. `MentionChannel` and `getGuildOwnerID` are remote wrappers.
- `FlushMessages`, `IsVoiceChannelEmpty`, `RollDice*` and `IsJSON` are not part of this model.
- Text.Title: `strings.Title` is modelled over ASCII letters and separators only; Unicode word rules and case mapping beyond ASCII are not.
- Text.TruncateString: `len(str)` counts bytes in Go; the model counts characters.

## Findings

| source | as written | input that shows it | evidently intended | confidence | as-written member | corrected member |
|---|---|---|---|---|---|---|
| util.go:270-278 | the halfway test `r+r < m` is an int64 addition, which wraps once `r > 2^62 - 1` | d = 2^63 - 2, m = 2^63 - 1: the remainder is d, `r + r` wraps to -4, and the result is 0 instead of m | the doc comment at util.go:257-262 promises the nearest multiple, halfway values away from zero; Go's own `Duration.Round` compares without overflow | not executed | Durations.RoundTimeAsWrittenWrapsAround | Durations.RoundTimeNearest |
