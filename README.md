# discord-soundboard — a Dafny model of the bot's core

The bot plays short audio clips in a guild's voice channel when someone types a command
(`!byebye`, ...) in a chat channel. It also answers `!iluminame` with a random phrase. Three pieces
of the program are modelled here:

- **Message routing and the voice-connection table** (`DiscordService`, module `Discord`,
  `discord.dfy`). `Route` is the pure classification of a message: ignore it, answer
  `!iluminame`, or look up its first token in the catalog. The class `DiscordService` holds
  `activeConnections` as a `map<GuildId, Conn>`. `HandleVoiceCommand` joins, reuses or
  moves the guild's connection and then plays the file on a fresh player. A ghost log
  records the service's calls into the voice transport: `Joined` (`joinVoiceChannel`),
  `Destroyed` (`destroy`), `Subscribed` (`subscribe`) and `Played` (`play`). `createAudioPlayer`
  is the `nextPlayer` counter, and the resource of `createAudioResource` is only the file
  argument of `Played`.
  The state change is specified by the functions `VoiceStep` and `VoiceCommand` on a `Voice`
  value. The lemmas about those functions state the reuse/move behaviour and the invariant
  `InSync`: every stored connection is live, and each guild has at most one live connection,
  namely the stored one. "Live" means joined and not yet destroyed by the service's own calls.
- **The sounds table** (`SoundsRepository`, module `Repository`, `repository.dfy`). It holds
  rows `{id, command, filepath}`, where `id` is an AUTOINCREMENT primary key and `command`
  is UNIQUE. The table is a `seq<Sound>` plus the AUTOINCREMENT counter. SELECT, INSERT and
  DELETE become the functions `LookupId`, `LookupCommand`, `Insert`, `Remove` and the
  seeding rule `Seed`. The class methods update the rows and the counter in place.
- **The catalog service** (`SoundsService`, module `Catalog`, `catalog.dfy`). `CreateSound`
  runs its three checks in order: the `!` prefix, that the file exists, and that the command
  is new. `DeleteSound` fails on an unknown id, and a failed unlink does not stop it. The
  filesystem is the set of paths that exist.

`wrappers.dfy` holds `Option` (for `null` results) and `Result` (for thrown errors).

The code has no `!stop` and no `!help` command, and it never removes an entry from
`activeConnections`; the model has none either. The first token of a command ends at the
first space character `' '` (src/discord/discord.service.ts:76), and `FirstToken` splits
the same way.

A consequence shown by `RoutedCommandShape`: the router only ever looks up a command that is
lower-case and contains no space. `CreateSound` accepts any command that starts with `!`
(the SQL `=` comparison is case-sensitive). So a catalog entry such as `!Hola` or `!dos palabras`
can be stored but can never be played from chat.

## Model

| member | source | states |
|---|---|---|
| `Repository.LookupId` | src/sounds/sounds.repository.ts:43-49 | the result is a row of the table with the given id, and it is None exactly when no row has that id |
| `Repository.LookupCommand` | src/sounds/sounds.repository.ts:51-57 | the result is a row with the given command, and it is None exactly when no row has that command |
| `Repository.WithoutId` | src/sounds/sounds.repository.ts:72-78 | DELETE keeps exactly the rows whose id differs and never adds rows |
| `Repository.LookupIdExact` | src/sounds/sounds.repository.ts:20 | under the PRIMARY KEY, the lookup by id returns a row exactly when that row is in the table with that id |
| `Repository.LookupCommandExact` | src/sounds/sounds.repository.ts:21 | under UNIQUE(command), the lookup by command returns a row exactly when that row is in the table with that command |
| `Repository.InsertConsistent` | src/sounds/sounds.repository.ts:59-70 | inserting a command that is not present keeps ids below the counter and ids and commands unique |
| `Repository.InsertFinds` | src/sounds/sounds.repository.ts:59-70 | after an insert the new row is found by its command and by its new id; every other lookup is unchanged |
| `Repository.AppendLookup` | src/sounds/sounds.repository.ts:43-57 | a row appended at the end changes no lookup for another id or command, nor one that already finds a row |
| `Repository.RemoveConsistent` | src/sounds/sounds.repository.ts:72-78 | a delete keeps the table's constraints |
| `Repository.WithoutIdUnique` | src/sounds/sounds.repository.ts:72-78 | filtering out an id keeps the id bounds and the uniqueness of ids and commands |
| `Repository.RemoveFinds` | src/sounds/sounds.repository.ts:72-78 | after a delete the id is no longer found, and every other id finds the same row as before |
| `Repository.RemoveCount` | src/sounds/sounds.repository.ts:72-78 | a delete removes exactly one row when the id is present and none otherwise |
| `Repository.SeedProvides` | src/sounds/sounds.repository.ts:26-34 | after seeding `!byebye` is present, the constraints hold, and a missing `!byebye` is inserted with `assets/byebye.mp3` under the next id |
| `Repository.SeedIdempotent` | src/sounds/sounds.repository.ts:26-34 | seeding twice gives the same table as seeding once, so a restart adds no second `!byebye` |
| `Repository.SoundsRepository.constructor` | src/sounds/sounds.repository.ts:12-24 | opening a persisted table keeps its rows (CREATE TABLE IF NOT EXISTS) and seeds it; `!byebye` is then present |
| `Repository.SoundsRepository.InitTable` | src/sounds/sounds.repository.ts:17-35 | inserts `!byebye` only when absent; the new state is the seeded old state |
| `Repository.SoundsRepository.FindAll` | src/sounds/sounds.repository.ts:37-41 | returns every row of the table and nothing else |
| `Repository.SoundsRepository.FindById` | src/sounds/sounds.repository.ts:43-49 | returns the row with that id, or None when no row has it |
| `Repository.SoundsRepository.FindByCommand` | src/sounds/sounds.repository.ts:51-57 | returns the row with that command, or None when no row has it |
| `Repository.SoundsRepository.Create` | src/sounds/sounds.repository.ts:59-70 | an existing command is a UNIQUE violation and the table is unchanged; otherwise it returns a row with exactly the given command and filepath under the next id, appended to the table |
| `Repository.SoundsRepository.Delete` | src/sounds/sounds.repository.ts:72-78 | returns true exactly when a row with that id existed; only that row is removed and the constraints hold |
| `Catalog.SoundsService.constructor` | src/sounds/sounds.service.ts:8 | the service uses the given repository; the set of existing files is an added parameter standing for the disk that `existsSync` and `fs.unlink` work on |
| `Catalog.SoundsService.GetAllSounds` | src/sounds/sounds.service.ts:10-12 | returns every catalog entry |
| `Catalog.SoundsService.GetSoundById` | src/sounds/sounds.service.ts:14-16 | returns the entry with that id, or None |
| `Catalog.SoundsService.GetSoundByCommand` | src/sounds/sounds.service.ts:18-20 | returns the entry whose command equals the argument, or None |
| `Catalog.SoundsService.CreateSound` | src/sounds/sounds.service.ts:22-40 | the errors are checked in order: no `!` prefix, then a missing file, then a duplicate command; any error leaves the catalog unchanged; success happens exactly when all three checks pass, and then adds one entry with the given command and filepath and returns it |
| `Catalog.ServiceErrorMessagesDistinct` | src/sounds/sounds.service.ts:25-45 | the four errors carry four different messages (the ones the source throws), so the message alone tells which check failed |
| `Catalog.SoundsService.DeleteSound` | src/sounds/sounds.service.ts:42-58 | an unknown id gives `SoundNotFound` and changes nothing; a known id removes that row and returns true, even when unlinking the file fails (the file then stays) |
| `Discord.LowerIsLower` | src/discord/discord.service.ts:58 | lowercased content has no upper-case letter, and lowercasing again changes nothing |
| `Discord.FirstToken` | src/discord/discord.service.ts:76 | `split(' ')[0]` is a prefix without a space that is either the whole text or followed by a space |
| `Discord.FirstTokenUnique` | src/discord/discord.service.ts:76 | any prefix with those properties is the first token |
| `Discord.Route` | src/discord/discord.service.ts:54-88 | bot messages are ignored; exactly `!iluminame` after lowercasing gives the phrase reply; any other lowercased content starting with `!` is looked up by its first token, which starts with `!` and is lower-case; everything else is ignored |
| `Discord.RouteIgnoresCase` | src/discord/discord.service.ts:58-75 | two contents equal up to letter case are routed alike |
| `Discord.RouteExamples` | src/discord/discord.service.ts:58-76 | `!ILUMINAME` gets the phrase reply, `!iluminame extra` is looked up as `!iluminame`, text not starting with `!` is ignored |
| `Discord.RoutedCommandShape` | src/discord/discord.service.ts:58-79 | a command the router looks up is lower-case and has no space |
| `Discord.VoiceCommand` | src/discord/discord.service.ts:104-147 | afterwards the guild's connection is on the requester's channel; every other guild's entry is unchanged; no entry is removed; the last two transport calls subscribe a new player to the stored connection and play the file on it |
| `Discord.VoiceStep` | src/discord/discord.service.ts:91-102 | without a guild, or when the author is in no voice channel, nothing changes; no entry is ever removed |
| `Discord.CountsAppend` | src/discord/discord.service.ts:113-119 | the joins and destroys of two consecutive stretches of transport calls add up |
| `Discord.CountsOfPlayback` | src/discord/discord.service.ts:137-140 | subscribing and playing are neither joins nor destroys |
| `Discord.FreshConn` | src/discord/discord.service.ts:119-123 | the handle a new join creates appears nowhere in earlier transport calls: it was never joined, destroyed or subscribed to |
| `Discord.FreshPlayer` | src/discord/discord.service.ts:131-140 | each command's player is new: no earlier call subscribed or played it |
| `Discord.VoiceCommandInSync` | src/discord/discord.service.ts:104-140 | a voice command keeps the invariant: each stored connection is live and belongs to its guild, each live connection is the one stored for its guild, and every handle in the log was issued |
| `Discord.VoiceStepInSync` | src/discord/discord.service.ts:91-140 | the guarded command keeps that invariant too |
| `Discord.AtMostOneLive` | src/discord/discord.service.ts:16 | under the invariant a guild has at most one live connection |
| `Discord.ReuseSameChannel` | src/discord/discord.service.ts:108-140 | when the stored connection is on the target channel, the table is unchanged and no join or destroy happens, only a subscribe and a play on that connection |
| `Discord.MoveToOtherChannel` | src/discord/discord.service.ts:111-126 | when the stored connection is on another channel, it is destroyed exactly once, then exactly one new connection to the target is joined and replaces it in the table |
| `Discord.MoveRetiresOld` | src/discord/discord.service.ts:111-126 | after a move the old connection is no longer live and the stored one is |
| `Discord.FirstJoin` | src/discord/discord.service.ts:117-126 | the first command in a guild joins exactly once and destroys nothing |
| `Discord.SameChannelTwice` | src/discord/discord.service.ts:108-126 | two commands to the same channel create at most one connection between them, and the second one neither joins nor destroys |
| `Discord.ByebyeScenario` | src/discord/discord.service.ts:74-140 | with the seeded catalog, `!byebye` from a user in channel V joins V once and plays `assets/byebye.mp3` there |
| `Discord.DiscordService.constructor` | src/discord/discord.service.ts:16 | the service starts with no active connection, no transport call and no reply |
| `Discord.DiscordService.HandleMessage` | src/discord/discord.service.ts:54-89 | the phrase reply is `phrases[pick]`, sent only when the channel can send; a message that is not a lookup, a lookup that throws, and a catalog miss all leave connections and transport untouched; a hit performs the voice command for the entry's file; no connection entry is ever removed |
| `Discord.DiscordService.HandleVoiceCommand` | src/discord/discord.service.ts:91-152 | the new connections, counters and transport log are `VoiceStep` of the old ones; no reply is sent |

## Left out

- Discord client construction, intents, `onModuleInit`, event registration and `login` (src/discord/discord.service.ts:18-52) are gateway I/O.
- The voice transport is opaque. A connection is a value with a serial number, its guild and its channel. `joinVoiceChannel`, `destroy`, `subscribe` and `play` are events in a ghost log. `createAudioPlayer` is a counter that hands out player serials, and `createAudioResource` is not a separate event: its file is the argument of the `Played` event. "Live" in the model means joined and not yet destroyed by the service itself. A disconnect by a moderator, or a destroy inside the voice library, never reaches the log. In that case the source's reuse branch (src/discord/discord.service.ts:111) keeps handing out the dead connection, and the model does not show it. The transport calls are assumed to succeed, so the `catch` at src/discord/discord.service.ts:149-151 is not modelled, and neither is the partial state a failure halfway through would leave.
- The `Idle` callback (src/discord/discord.service.ts:145-147) only logs, so it is not modelled. The connection stays in the table.
- `Math.random` phrase selection is the parameter `pick`, an index below the length of the phrase set. The phrase set is defined in a file that is not part of this model, so it is a non-empty constructor argument.
- An exception thrown by the catalog lookup is the flag `lookupFails` of `HandleMessage`. The in-memory table itself never fails.
- Console logging is left out. Text replies are recorded in the ghost sequence `replies`.
- Concurrency: message handlers overlap only at the awaited catalog lookup (src/discord/discord.service.ts:79). The voice-table update (src/discord/discord.service.ts:104-147) contains no `await` and runs as one step. Sequential `HandleMessage` steps, taken in the order the lookups resolve, therefore cover every interleaving. Two commands for the same guild can finish in a different order from the one they arrived in, but they cannot both find no entry and both join.
- SQL text, the SQLite engine, and the driver fields `insertId`, `lastID`, `affectedRows` and `changes` are replaced by the in-memory table. The table is assumed to list rows in insertion order.
- `Repository.SoundsRepository.constructor`: treats the seeding as finished when construction returns. The source calls `initTable()` without awaiting it (src/sounds/sounds.repository.ts:14), so queries can run before `!byebye` is inserted.
- `Repository.SoundsRepository.Create`: returns the id the AUTOINCREMENT counter allocated. The source reads the id back from the driver result (`insertId || lastID`), and that read-back is not modelled.
- `Discord.LowerIsLower`: `toLowerCase` is modelled on the letters A to Z only. The Unicode case mappings (accented letters, mappings that change the length) are not modelled.
- `existsSync` and `fs.unlink` work on a set of existing paths. An unlink failure is the flag `unlinkFails` of `DeleteSound`.
- `Discord.DiscordService.HandleVoiceCommand`: does not state the connection invariant itself. `HandleMessage`, the only caller, re-establishes it with `VoiceStepInSync`.
- The admin panel and upload endpoints (src/sounds/sounds.controller.ts) and the module wiring (src/app.module.ts, src/discord/discord.module.ts, src/sounds/sounds.module.ts) are HTTP plumbing and dependency injection.
