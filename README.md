# Game controller rules, modelled in Dafny

This project models `IGameController`, the rules layer of a tick-based
multiplayer game server (a race modification of Teeworlds). The controller
sits between the game world and the network. Its parts:

- **Chat-command registry** (`ChatCommands`, `chat_commands.dfy`): a fixed
  table of 22 slots updated in place.
  - Adding a name does nothing if the name is already registered or no slot is free.
  - Otherwise the command goes into the lowest free slot.
  - Removing clears the slot that holds the name.
  - A lookup finds the first used slot with that name.
  - A connecting client gets seven removal messages, then one info message per used slot.
  - At start-up the table receives four built-in commands.
- **Spawn selection** (`Spawn`, `spawn.dfy`):
  - For every spawn point, the first of five offsets (centre, left, up, right, down) that no nearby character blocks.
  - A danger score for each candidate position.
  - Among the candidates, the lowest score wins; ties keep the earlier point.
- **Tile decoding** (`TileEntities`, `tile_entities.dfy`): what each map tile
  creates while the map loads, namely doors, rotating lights, shotgun bullets,
  draggers, turrets and pickups. Each creation is a configuration record
  computed from the tile index, its flags and its 8 neighbours at distance 1
  and 2.
- **Inactivity check** (`Inactivity`, `inactivity.dfy`): the per-tick scan
  over player slots. An idle player is moved to the spectators, kicked, or
  either one depending on how many spectators there are at that moment.
- **The controller** (`GameController`, `controller.dfy`): class
  `Controller` owns three spawn-point lists (an `array2` with per-type counts),
  the round state, the command table and a reference to the world. Its operations:
  - map loading (`OnEntity`);
  - spawning (`CanSpawn`);
  - round start and reset;
  - snapshot items;
  - the game-info broadcast;
  - team admission, clamping and naming;
  - chat-command dispatch.

Tile numbers, team numbers and flag bits live in `MapItems`
(`mapitems.dfy`). The headers that define them are not part of this model.
The values follow the DDNet numbering of entity tiles:

| Constant | Value |
|---|---|
| spawn tiles | 1–3 |
| armor | 6 |
| health | 7 |
| shotgun | 8 |
| grenade | 9 |
| ninja | 10 |
| laser | 11 |
| rotating lights | 12–18, stop = 15 |
| length tiles | 19–21 |
| curve tiles | 22–24 |
| oscillate tiles | 25–27 |
| turrets | 29–32 |
| crazy-shotgun bullets | 33–34 |
| draggers | 42–47 |
| door | 49 |
| tile flags | vertical flip 1, horizontal flip 2, rotate 8 |
| teams | spectators -1, red 0, blue 1 |
| game flags | teams 1, race 8 |
| sudden-death state flag | 2 |

Other sizes are taken as the protocol defines them:

- registry size 22;
- name, help and argument buffers of 32, 64 and 16 bytes;
- 64 spawn points per type.

What the model treats as inputs or outputs:

- **World and map queries are inputs.** The live characters, the characters
  near a point, the solidity test, the distance function and the tile query
  are all parameters.
- **Effects become values.** Created entities are appended to
  `GameWorld.entities`. Network messages, snapshot items, kick requests and
  console lines are returned as values.

## Model

| member | source | states |
|---|---|---|
| `ChatCommands.Utf8Size` | src/game/server/gamecontroller.cpp:558-560 | the buffers count bytes: a string takes between one and four bytes per character in UTF-8 |
| `ChatCommands.AsciiSize` | src/game/server/gamecontroller.cpp:558-560 | an ASCII string takes one byte per character |
| `ChatCommands.Truncate` | src/game/server/gamecontroller.cpp:558-560 | copying into a buffer of `size` bytes keeps a prefix of whole characters whose encoding is shorter than `size` bytes, and the whole string when it fits |
| `ChatCommands.TruncateMaximal` | src/game/server/gamecontroller.cpp:558-560 | what the copy cuts off does not fit: the kept prefix plus the next character takes at least `size` bytes |
| `ChatCommands.NewEntry` | src/game/server/gamecontroller.cpp:556-563 | the new entry holds the name, help text and argument format each cut to its 32-, 64- or 16-byte buffer, and the handler |
| `ChatCommands.FindCommand` | src/game/server/gamecontroller.cpp:587-597 | the result is the lowest-index used slot with that name; it is None exactly when no used slot has it |
| `ChatCommands.FirstFree` | src/game/server/gamecontroller.cpp:551-566 | the lowest-index free slot; it is None exactly when every slot is used |
| `ChatCommands.Added` | src/game/server/gamecontroller.cpp:547-567 | the table is unchanged when the name is present or the table is full; otherwise the first free slot gets the new entry and no other slot changes |
| `ChatCommands.Removed` | src/game/server/gamecontroller.cpp:577-585 | the table is unchanged when the name is absent; otherwise the first slot holding the name becomes free and nothing else changes |
| `ChatCommands.AddedKeepsUnique` | src/game/server/gamecontroller.cpp:547-567 | adding a name that fits its buffer preserves the invariant that no two used slots share a name |
| `ChatCommands.RemovedKeepsUnique` | src/game/server/gamecontroller.cpp:577-585 | removing preserves unique names |
| `ChatCommands.AddedIdempotent` | src/game/server/gamecontroller.cpp:549-550 | adding a name that fits its buffer a second time, with any help text or handler, changes nothing |
| `ChatCommands.AddedThenFound` | src/game/server/gamecontroller.cpp:547-597 | after a successful add of a name that fits its buffer, lookup finds the name in the slot that was the first free one, holding the new entry |
| `ChatCommands.RemoveUndoesAdd` | src/game/server/gamecontroller.cpp:547-585 | removing a name that fits its buffer and was absent before an add restores the table exactly |
| `ChatCommands.LongNameAddedTwice` | src/game/server/gamecontroller.cpp:547-597 | a name of 32 bytes or more is stored cut, so lookup still misses it after the add, and a second add fills another free slot |
| `ChatCommands.RemovedIsAbsent` | src/game/server/gamecontroller.cpp:577-597 | in a table with unique names, lookup finds nothing after a remove |
| `ChatCommands.WithBuiltins` | src/game/server/gamecontroller.cpp:639-646 | the four built-in adds, in registration order, with the cmdlist handler on the last one only |
| `ChatCommands.BuiltinNamesKept` | src/game/server/gamecontroller.cpp:641-645 | the four built-in names fit the name buffer and are stored whole |
| `ChatCommands.BuiltinsOnEmptyTable` | src/game/server/gamecontroller.cpp:639-646 | start-up on a zeroed table puts cmdlist, credits, info and the cmdlist hint, with its handler, in slots 0 to 3 and leaves the rest free |
| `ChatCommands.RemovalMessages` | src/game/server/gamecontroller.cpp:601-610 | the seven client-side commands are retracted in the order all, friend, m, mute, r, team, whisper |
| `ChatCommands.UsedIndicesExact` | src/game/server/gamecontroller.cpp:612-625 | the used slots, listed in increasing order, each once |
| `ChatCommands.InfoMessages` | src/game/server/gamecontroller.cpp:612-625 | one info message per used slot, in slot order, none for a free slot |
| `ChatCommands.InfoMessagesFollowUsedSlots` | src/game/server/gamecontroller.cpp:612-625 | the k-th info message describes the k-th used slot, with its name, help text and argument format |
| `ChatCommands.CommandTable.constructor` | src/game/server/gamecontroller.cpp:542-545 | a new table has every slot free |
| `ChatCommands.CommandTable.OnInit` | src/game/server/gamecontroller.cpp:639-646 | the table becomes the four built-in adds applied in order |
| `ChatCommands.CommandTable.GetCommand` | src/game/server/gamecontroller.cpp:587-597 | the search loop returns FindCommand of the slots |
| `ChatCommands.CommandTable.AddCommand` | src/game/server/gamecontroller.cpp:547-567 | the slots become Added of the old slots |
| `ChatCommands.CommandTable.RemoveCommand` | src/game/server/gamecontroller.cpp:577-585 | the slots become Removed of the old slots |
| `ChatCommands.CommandTable.OnPlayerConnect` | src/game/server/gamecontroller.cpp:569-626 | the seven removals, then one info message per used slot in slot order, all addressed to the client |
| `Spawn.Blocks` | src/game/server/gamecontroller.cpp:104-105 | a character rules out a position that is solid or within its proximity radius |
| `Spawn.IsClear` | src/game/server/gamecontroller.cpp:103-109 | an offset is clear when none of the characters found near the spawn point rules it out |
| `Spawn.FirstClearFrom` | src/game/server/gamecontroller.cpp:100-111 | the first offset from k on that no nearby character blocks; it is None exactly when all of them are blocked |
| `Spawn.Candidate` | src/game/server/gamecontroller.cpp:96-114 | a spawn point offers itself plus its first clear offset, and nothing when all five are blocked |
| `Spawn.CandidateIsClear` | src/game/server/gamecontroller.cpp:100-113 | a chosen position is outside every nearby character's proximity radius, and not solid when any character is near |
| `Spawn.Weight` | src/game/server/gamecontroller.cpp:78-81 | a character weighs 0.5 exactly when it is on the friendly team (and that team is not -1), and 1 otherwise |
| `Spawn.Danger` | src/game/server/gamecontroller.cpp:83-84 | a character at distance d adds 1/d, and 1000000000 at distance zero |
| `Spawn.DangerSum` | src/game/server/gamecontroller.cpp:74-87 | the score sums weight times danger over the live characters in world order |
| `Spawn.Score` | src/game/server/gamecontroller.cpp:115 | a random number when random spawning is on, the danger sum otherwise |
| `Spawn.FartherIsSafer` | src/game/server/gamecontroller.cpp:72-88 | a position at least as far from every character scores no more |
| `Spawn.TeamMateHalvesDanger` | src/game/server/gamecontroller.cpp:78-84 | turning a friendly character into an enemy adds half its danger to the score |
| `Spawn.SamePrefixSameSum` | src/game/server/gamecontroller.cpp:72-88 | the score depends only on the characters it sums over |
| `Spawn.OneEnemyExample` | src/game/server/gamecontroller.cpp:83-84 | one enemy at distance 100 scores 0.01, at distance 10 scores 0.1 |
| `Spawn.DangerDecreasing` | src/game/server/gamecontroller.cpp:84 | the danger term is positive and does not grow with distance |
| `Spawn.ClearOffset` | src/game/server/gamecontroller.cpp:96-111 | the nested offset and character loops find FirstClearFrom(0) |
| `Spawn.EvaluateSpawnPos` | src/game/server/gamecontroller.cpp:72-88 | the loop computes the weighted danger sum over all live characters |
| `Spawn.ReplaceStep` | src/game/server/gamecontroller.cpp:116-121 | a strictly lower score replaces the kept candidate and keeps the selection invariant |
| `Spawn.KeepStep` | src/game/server/gamecontroller.cpp:112-121 | a blocked point, or a score that is not strictly lower, changes nothing and keeps the invariant |
| `Spawn.EvaluateSpawnType` | src/game/server/gamecontroller.cpp:90-123 | a result is found iff one was held or some point offers a candidate; when nothing beats the input it is returned unchanged; otherwise the result holds the first point with the strictly lowest score |
| `TileEntities.Trunc` | src/game/server/gamecontroller.cpp:150-151 | float-to-int conversion truncates toward zero |
| `TileEntities.CellX` | src/game/server/gamecontroller.cpp:150 | the tile column of a position: (x − 16)/32 truncated toward zero |
| `TileEntities.CellY` | src/game/server/gamecontroller.cpp:151 | the tile row of a position: (y − 16)/32 truncated toward zero |
| `TileEntities.Ring` | src/game/server/gamecontroller.cpp:152-160 | the eight neighbours at a distance, in the order below, below-right, right, above-right, above, above-left, left, below-left (distance 2 at lines 271-279) |
| `TileEntities.BeamLength` | src/game/server/gamecontroller.cpp:180 | a length tile selects 96 + 96·(v − short), one of 96, 192 and 288 (the same formula at line 309 for lights) |
| `TileEntities.DoorBeams` | src/game/server/gamecontroller.cpp:169-185 | one door per neighbour holding a length tile, scanning directions 0 to 7 |
| `TileEntities.DoorBeamsExact` | src/game/server/gamecontroller.cpp:169-185 | one door per neighbour holding a length tile, in direction order, each with that direction and the length it selects |
| `TileEntities.SingleDoorExample` | src/game/server/gamecontroller.cpp:169-185 | one short length tile below a door makes a single door of length 96 in direction 0 |
| `TileEntities.RotationSense` | src/game/server/gamecontroller.cpp:281-291 | the sense is +1 below the stop tile, 0 at it and −1 above it |
| `TileEntities.SpeedTier` | src/game/server/gamecontroller.cpp:282-287 | the tier is the distance from the stop tile, at most 3 for a light tile |
| `TileEntities.TierStep` | src/game/server/gamecontroller.cpp:295-302 | tiers 0 to 3 turn by 0, pi/360, pi/180 and pi/90 per tick |
| `TileEntities.AngularSpeed` | src/game/server/gamecontroller.cpp:281-303 | the step of the tier times the rotation sense |
| `TileEntities.AngularSpeedDecoding` | src/game/server/gamecontroller.cpp:281-303 | the sign of the angular speed is the rotation sense; its magnitude grows strictly with the tier; mirror tiles turn at opposite speeds |
| `TileEntities.MakeLight` | src/game/server/gamecontroller.cpp:309-322 | the light for one length neighbour: its length from the tile, its motion from the ring-2 value |
| `TileEntities.MakeLightShape` | src/game/server/gamecontroller.cpp:309-323 | the light for one length neighbour has that direction, the tile's angular speed and that tile's length, and moves as the ring-2 value in the same direction selects |
| `TileEntities.LightBeams` | src/game/server/gamecontroller.cpp:305-324 | one light per neighbour holding a length tile, scanning directions 0 to 7 |
| `TileEntities.LightBeamsExact` | src/game/server/gamecontroller.cpp:305-324 | one light per length neighbour with the tile's angular speed. The ring-2 value picks the motion: curving means speed 1 + 2·(v2 − C_SLOW) with curve length = length; oscillating means 1 + 2·(v2 − O_SLOW) with curve length 0; otherwise curve length = length |
| `TileEntities.DraggerStrength` | src/game/server/gamecontroller.cpp:327-334 | strength 1 to 3 from weak to strong, in both variants |
| `TileEntities.ShotgunExDir` | src/game/server/gamecontroller.cpp:188-196 | the explosive bullet's direction: 0 without flags, 1 for ROTATION_90, 2 for ROTATION_180, 3 otherwise |
| `TileEntities.ShotgunDir` | src/game/server/gamecontroller.cpp:217-225 | the plain bullet's direction: 0 without flags, 1 for the rotate bit, 2 for both flips, 3 otherwise |
| `TileEntities.ShotgunDirections` | src/game/server/gamecontroller.cpp:186-243 | the flags map to direction 0, 1 or 2 for none, a quarter turn or a half turn, and 3 for anything else; the bounce count is 2 along directions 0 and 2 and 1 along 1 and 3 |
| `TileEntities.PickupOf` | src/game/server/gamecontroller.cpp:245-268 | armor, health, the shotgun, grenade and laser weapons and ninja select their pickup type and sub-type; other tiles select none |
| `TileEntities.FirstChain` | src/game/server/gamecontroller.cpp:162-243 | spawn tiles create nothing here; a door creates its beams; the two bullet tiles create one freezing bullet each |
| `TileEntities.SecondChain` | src/game/server/gamecontroller.cpp:245-350 | pickup tiles create nothing here; lights, draggers and the four turrets create theirs |
| `TileEntities.PickupEntity` | src/game/server/gamecontroller.cpp:352-356 | the pickup the second chain selected, created last |
| `TileEntities.CreatedEntities` | src/game/server/gamecontroller.cpp:141-359 | nothing for a negative index; otherwise the first chain, then the second chain, then the pickup |
| `TileEntities.CreatedEntitiesByKind` | src/game/server/gamecontroller.cpp:141-359 | nothing for a negative, spawn or unknown index; exactly one pickup with its type and subtype for a pickup tile; one freezing bullet, explosive only for the EX tile; one dragger with its strength and wall flag; one turret whose freeze and explosive flags are (no, yes), (yes, no), (yes, yes) and (no, no) for the four turret tiles; one beam per length neighbour for doors and lights |
| `Inactivity.Idle` | src/game/server/gamecontroller.cpp:438-440 | a present, non-spectator, unauthenticated player whose last action is more than KickTime minutes old |
| `Inactivity.SpectatorCount` | src/game/server/gamecontroller.cpp:453-456 | the number of present players on the spectator team |
| `Inactivity.Step` | src/game/server/gamecontroller.cpp:442-468 | the decision for one idle slot: move (policy 0), kick or move by the spectator count (policy 1), kick (policy 2), nothing for any other policy |
| `Inactivity.InactivityCheck` | src/game/server/gamecontroller.cpp:427-471 | the scan over all slots when the kick time is positive, nothing otherwise |
| `Inactivity.Scan` | src/game/server/gamecontroller.cpp:429-471 | the scan leaves the number of slots unchanged |
| `Inactivity.SpectatorCountUpdate` | src/game/server/gamecontroller.cpp:452-455 | changing one slot changes the spectator count by what the old and the new occupant contribute |
| `Inactivity.StepEffect` | src/game/server/gamecontroller.cpp:438-468 | one decision touches only its own slot: it leaves it alone, moves its idle player, or appends a kick naming it. Policy 0 never kicks, policy 2 never moves, and policies 0 to 2 always act on an idle slot |
| `Inactivity.ScanShape` | src/game/server/gamecontroller.cpp:429-471 | only idle slots change, and then only to spectator; kicks name idle, unmoved slots below the scan bound, with the inactivity reason, in increasing slot order |
| `Inactivity.IdleSlotsHandled` | src/game/server/gamecontroller.cpp:441-468 | under policies 0 to 2, every idle player is either moved or kicked, never both |
| `Inactivity.PolicyMoveOnly` | src/game/server/gamecontroller.cpp:443-448 | policy 0 moves exactly the idle players and kicks nobody |
| `Inactivity.NoKicksUnderPolicyZero` | src/game/server/gamecontroller.cpp:443-448 | policy 0 requests no kick |
| `Inactivity.PolicyKickOnly` | src/game/server/gamecontroller.cpp:461-466 | policy 2 kicks exactly the idle players and moves nobody |
| `Inactivity.PolicyQuotaBound` | src/game/server/gamecontroller.cpp:449-460 | under policy 1 the spectator count never rises above the larger of its start value and the reserved slots |
| `Inactivity.ScanKeepsDecided` | src/game/server/gamecontroller.cpp:429-471 | once slot j is decided, later decisions leave it alone |
| `Inactivity.PolicyOneDecision` | src/game/server/gamecontroller.cpp:450-461 | under policy 1 an idle player is moved exactly when the spectators at its turn are fewer than the reserved slots, and kicked exactly when they are not |
| `Inactivity.QuotaStep` | src/game/server/gamecontroller.cpp:449-460 | one policy-1 decision leaves the spectator count no higher than before, or within the reserved slots |
| `Inactivity.CheckDisabled` | src/game/server/gamecontroller.cpp:427 | with a kick time of zero or less nothing changes |
| `Inactivity.Tick` | src/game/server/gamecontroller.cpp:424-473 | the in-place scan, including the inner spectator count, leaves the slots and kicks that InactivityCheck specifies |
| `GameController.Watched` | src/game/server/gamecontroller.cpp:386-387 | a spectating or paused viewer watches the character it spectates; others watch nobody |
| `GameController.StartTick` | src/game/server/gamecontroller.cpp:389-394 | a watched running race's start, else the viewer's own running race's start when it watches nobody, else the round start |
| `GameController.StateFlags` | src/game/server/gamecontroller.cpp:396-399 | only the sudden-death bit, set in sudden death |
| `GameController.BestTime` | src/game/server/gamecontroller.cpp:405 | -1 without a record, otherwise the record in milliseconds truncated toward zero |
| `GameController.StartTickChoice` | src/game/server/gamecontroller.cpp:385-395 | the demo sees the round start. A viewer watching a character never sees its own run. A playing viewer sees its own run's start exactly when that run has started |
| `GameController.StateFlagsExact` | src/game/server/gamecontroller.cpp:397-400 | the sudden-death bit is set exactly in sudden death, and no other state bit is ever set |
| `GameController.BestTimeMilliseconds` | src/game/server/gamecontroller.cpp:405 | a positive record is sent as its whole number of milliseconds |
| `GameController.StartMatchLine` | src/game/server/gamecontroller.cpp:375 | the console line names the game type and the team bit of the game flags |
| `GameController.WithoutRaceFlag` | src/game/server/gamecontroller.cpp:484-485 | the message with the race bit of the game flags cleared |
| `GameController.InfoFor` | src/game/server/gamecontroller.cpp:494 | clients older than the race-aware version get the message without the race bit |
| `GameController.RaceFlagMasking` | src/game/server/gamecontroller.cpp:484-485 | old clients lose the race bit and nothing else; race-aware clients get the message unchanged |
| `GameController.Broadcast` | src/game/server/gamecontroller.cpp:487-497 | one message per client slot with a player that is in game, in slot order |
| `GameController.BroadcastExact` | src/game/server/gamecontroller.cpp:487-496 | a broadcast reaches every in-game client with a player exactly once, in slot order, with the message its version calls for, and nobody else |
| `GameController.PlayingCount` | src/game/server/gamecontroller.cpp:515-523 | the red and blue players in the slots, leaving out one slot |
| `GameController.JoinAllowed` | src/game/server/gamecontroller.cpp:510-526 | joining the spectators, or switching from a playing team, is allowed; otherwise the other playing players must be fewer than the cap |
| `GameController.CanJoinTeam` | src/game/server/gamecontroller.cpp:510-526 | joining the spectators or switching between playing teams is always allowed; otherwise the other playing players must number fewer than max clients minus the reserved spectator slots |
| `GameController.PlayingCountUpdate` | src/game/server/gamecontroller.cpp:515-523 | replacing one slot changes the full playing count by the old and the new occupant |
| `GameController.JoinKeepsPlayingCap` | src/game/server/gamecontroller.cpp:510-526 | an allowed join never pushes the number of playing players above the cap |
| `GameController.ClampTeam` | src/game/server/gamecontroller.cpp:528-533 | a team below red becomes the spectators, and any other team becomes red |
| `GameController.GetTeamName` | src/game/server/gamecontroller.cpp:535-540 | red is "game"; every other team is "spectators" |
| `GameController.ClampedTeamName` | src/game/server/gamecontroller.cpp:528-540 | a clamped team is named after its side of red, and clamping is idempotent |
| `GameController.Controller.SpawnPoints` | src/game/server/gamecontroller.cpp:162-167 | the list of type t has as many points as the type's count |
| `GameController.Controller.constructor` | src/game/server/gamecontroller.cpp:22-55 | the start tick is the current tick. Counters, sudden death and flags are zero. The type is "unknown", the limits are the configured ones, all spawn lists are empty, and the table holds the built-in commands |
| `GameController.Controller.AppendSpawnPoint` | src/game/server/gamecontroller.cpp:162-167 | the position is appended to one spawn list and the other lists are unchanged |
| `GameController.Controller.OnEntity` | src/game/server/gamecontroller.cpp:141-359 | a spawn tile appends to its own list. The world receives exactly CreatedEntities. The result is true exactly for a pickup tile, and false for a negative index |
| `GameController.Controller.FirstChainEntities` | src/game/server/gamecontroller.cpp:162-243 | the spawn, door and bullet branches append FirstChain |
| `GameController.Controller.SecondChainEntities` | src/game/server/gamecontroller.cpp:245-357 | the pickup, light, dragger and turret branches append SecondChain, then the pickup the chain selected is appended; the result is true exactly for a pickup tile |
| `GameController.Controller.CanSpawn` | src/game/server/gamecontroller.cpp:57-70 | spectators never spawn. Otherwise a position exists iff some neutral spawn point offers one, and it is the first point with the lowest danger score |
| `GameController.Controller.ResetGame` | src/game/server/gamecontroller.cpp:361-364 | the world is asked to reset |
| `GameController.Controller.StartRound` | src/game/server/gamecontroller.cpp:366-377 | the world is reset and unpaused, the round counter and sudden death are cleared, and the demo start and the match line with the team bit are emitted |
| `GameController.Controller.Snap` | src/game/server/gamecontroller.cpp:379-422 | game data with the chosen start tick and the state flags, race data with the best time, and game info for the demo only, stopping at the first item that does not fit |
| `GameController.Controller.UpdateGameInfo` | src/game/server/gamecontroller.cpp:475-503 | one client gets the message for its version; -1 broadcasts to the in-game clients with players |
| `GameController.Controller.OnPlayerCommand` | src/game/server/gamecontroller.cpp:628-637 | the handler of the first matching command runs with the arguments when there is one; otherwise the arguments go to the generic executor |

## Left out

- Floating point is replaced by exact values:
  - positions and danger scores are reals;
  - beam angles `pi/4*i` and bullet angles `Dir*(pi/2)` are direction indices, and `sin`/`cos` directions are not computed;
  - angular speeds are integers in units of pi/360;
  - float rounding is not modelled.
- `BestTimeMilliseconds` works on exact reals. It does not model the float product `m_CurrentRecord*1000.0f` or its overflow when converted to int.
- `random_int()` in random spawn scoring becomes a function of the spawn point's index, passed in by the caller. `CanSpawn` never uses it.
- The initial value of a spawn evaluation (friendly team -1) comes from a header that is not part of this model. Its default position is not modelled, because `CanSpawn` returns an optional position.
- Entity constructors (`CDoor`, `CLight`, `CProjectile`, `CDraggerTeam`, `CGun`, `CPickup`) are configuration records appended to a log. Their own behaviour is not part of this model.
- World and map queries are parameters: `FindFirst`/`TypeNext`, `FindEntities` (including its cap of MAX_CLIENTS results), `Collision()->Entity` and `CheckPoint`.
- Network sends, snapshot allocation, the console print and the demo recorder become returned values; their delivery is not modelled.
- Server-side kick handling is left out, as are the other effects of `SetTeam` (only the team change is modelled).
- `ChangeMap` is left out: a string copy into global configuration.
- `OnCharacterSpawn` is left out: it only calls into `CCharacter`.
- `OnCharacterDeath` is left out: it always returns 0.
- `Com_CmdList` is left out: it passes "/cmdlist" to the generic executor. Handlers are opaque identifiers here.
- The debug-build dummy branch of the inactivity check is left out.
- `Inactivity.Tick` does not model integer overflow in `LastActionTick + KickTime*TickSpeed*60`; integers are unbounded.
- `GameController.Controller.OnEntity` requires free room in the spawn list of a spawn tile. The source writes past the end of the fixed array when a map has more than 64 spawn points of one type.
- `ChatCommands.Truncate` keeps whole characters. `str_copy` lives in `base/system.c`, which is not part of this model; a copy that cuts inside a multi-byte character would keep that character's leading bytes, and the model drops the whole character instead.
- `ChatCommands.AddedKeepsUnique` assumes a name that fits the 32-byte buffer. A longer name is stored cut, and the cut name may equal a name already in the table.
- `ChatCommands.AddedIdempotent` assumes a name that fits the 32-byte buffer. For a longer name the second add fills another slot (`LongNameAddedTwice`).
- `ChatCommands.AddedThenFound` assumes a name that fits the 32-byte buffer. A longer name is stored cut and lookup by the full name misses it (`LongNameAddedTwice`).
- `ChatCommands.RemoveUndoesAdd` assumes a name that fits the 32-byte buffer. A longer name is not found again, so removing it leaves the added slot in place.
- Characters are Unicode scalar values; a C string cannot hold a zero byte, and names with an embedded NUL character are not modelled differently from others.
- `GameController.Controller.UpdateGameInfo` takes the minimum race-aware client version as a parameter; its value comes from a header that is not part of this model.
- `GameController.Controller.Snap` takes the snapping client as an optional viewer. For the demo recorder (client -1) the source indexes the player array at -1; the model treats that as "no player".
