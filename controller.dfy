/**
 * The game controller: the rules layer between the game world and the
 * network.  It owns the spawn-point lists filled while the map loads, the
 * round state shown in every snapshot, and the chat-command registry.
 *
 * The game world is reduced to the parts the controller writes: the log of
 * entities it creates and the reset and pause flags.  Players, clients and
 * configuration values are inputs; network messages, snapshot items and
 * console lines are returned as values.
 */
module GameController {
  import opened Wrappers
  import opened MapItems
  import opened Spawn
  import opened TileEntities
  import opened ChatCommands
  import opened Inactivity

  /** Capacity of each spawn-point list. */
  const MaxSpawnPoints := 64

  function Min(a: int, b: int): int
  {
    if a <= b then a else b
  }

  /** The part of the game world the controller updates. */
  class GameWorld {
    var entities: seq<Entity>
    var resetRequested: bool
    var paused: bool

    constructor ()
      ensures entities == [] && !resetRequested && !paused
    {
      entities := [];
      resetRequested := false;
      paused := false;
    }
  }

  datatype GameInfo = GameInfo(scoreLimit: int, timeLimit: int, matchNum: int, matchCurrent: int)

  // ---- Round start ----

  /** Side effects of starting a round outside the controller: the demo recorder and the console. */
  datatype ServerEvent = DemoAutoStart | ConsoleDebug(system: string, line: string)

  /** The console line announcing a match; `teamplay` is the team bit of the game flags. */
  function StartMatchLine(gameType: string, teamplay: bv32): string
    requires teamplay <= 1
  {
    "start match type='" + gameType + "' teamplay='" + (if teamplay == 0 then "0" else "1") + "'"
  }

  // ---- Snapshots ----

  /** A character's race as a snapshot sees it. */
  datatype RaceRun = RaceRun(started: bool, startTime: int)

  /** The snapping client's player: its team, whether it is paused, and the run of the character it watches. */
  datatype ViewerPlayer = ViewerPlayer(team: int, paused: bool, spectatedRun: Option<RaceRun>)

  /**
   * A snapping client: the run of its own character, if it has one, and its
   * player.  The demo recorder snaps as no client at all (None).
   */
  datatype Viewer = Viewer(ownRun: Option<RaceRun>, player: Option<ViewerPlayer>)

  datatype SnapItem =
    | GameData(gameStartTick: int, gameStateFlags: bv32, gameStateEndTick: int)
    | GameDataRace(bestTime: int, precision: int, raceFlags: int)
    | DemoGameInfo(gameFlags: bv32, scoreLimit: int, timeLimit: int, matchNum: int, matchCurrent: int)

  /** The run a spectating or paused viewer watches; None when it watches nobody. */
  function Watched(viewer: Option<Viewer>): Option<RaceRun>
  {
    if viewer.Some? && viewer.value.player.Some? &&
       (viewer.value.player.value.team == TeamSpectators || viewer.value.player.value.paused)
    then viewer.value.player.value.spectatedRun
    else None
  }

  /** The start tick a viewer is shown: a watched running race, else its own running race, else the round's. */
  function StartTick(viewer: Option<Viewer>, roundStart: int): int
  {
    var watched := Watched(viewer);
    if watched.Some? && watched.value.started then watched.value.startTime
    else if watched.None? && viewer.Some? && viewer.value.ownRun.Some? && viewer.value.ownRun.value.started
    then viewer.value.ownRun.value.startTime
    else roundStart
  }

  /** The game-state flags of a snapshot. */
  function StateFlags(suddenDeath: bool): bv32
  {
    if suddenDeath then GameStateFlagSuddenDeath else 0
  }

  /** The best race time in milliseconds, -1 when there is no record yet. */
  function BestTime(record: real): int
  {
    if record == 0.0 then -1 else Trunc(record * 1000.0)
  }

  /**
   * Whose clock a snapshot shows.  The demo recorder always sees the round's
   * start; a viewer that watches a character never sees its own run; a
   * viewer that is playing (neither spectating nor paused) sees its own
   * run's start exactly when that run has started.
   */
  lemma StartTickChoice(viewer: Option<Viewer>, roundStart: int)
    ensures viewer.None? ==> StartTick(viewer, roundStart) == roundStart
    ensures Watched(viewer).Some? ==>
      StartTick(viewer, roundStart) == (if Watched(viewer).value.started then Watched(viewer).value.startTime else roundStart)
    ensures viewer.Some? && viewer.value.player.Some? &&
            viewer.value.player.value.team != TeamSpectators && !viewer.value.player.value.paused ==>
      StartTick(viewer, roundStart) ==
        (if viewer.value.ownRun.Some? && viewer.value.ownRun.value.started then viewer.value.ownRun.value.startTime else roundStart)
    ensures StartTick(viewer, roundStart) == roundStart ||
      (Watched(viewer).Some? && Watched(viewer).value.started) ||
      (viewer.Some? && viewer.value.ownRun.Some? && viewer.value.ownRun.value.started)
  {
  }

  /** The sudden-death bit is set exactly in sudden death, and no other state bit ever is. */
  lemma StateFlagsExact(suddenDeath: bool)
    ensures StateFlags(suddenDeath) & GameStateFlagSuddenDeath != 0 <==> suddenDeath
    ensures StateFlags(suddenDeath) & !GameStateFlagSuddenDeath == 0
  {
  }

  /** A record of t seconds is reported as its whole number of milliseconds. */
  lemma BestTimeMilliseconds(record: real)
    requires record > 0.0
    ensures BestTime(record) >= 0
    ensures BestTime(record) as real <= record * 1000.0 < BestTime(record) as real + 1.0
  {
  }

  // ---- Game info ----

  /** The game-info message: flags and the round's limits and match counters. */
  datatype GameInfoMsg = GameInfoMsg(gameFlags: bv32, scoreLimit: int, timeLimit: int, matchNum: int, matchCurrent: int)

  /** A client slot as UpdateGameInfo sees it. */
  datatype ClientState = ClientState(hasPlayer: bool, ingame: bool, version: int)

  datatype InfoSend = InfoSend(to: nat, msg: GameInfoMsg)

  /** The message with the race flag cleared. */
  function WithoutRaceFlag(m: GameInfoMsg): GameInfoMsg
  {
    m.(gameFlags := m.gameFlags & !GameFlagRace)
  }

  /** Clients older than the race-aware version get the message without the race flag. */
  function InfoFor(full: GameInfoMsg, version: int, minRaceVersion: int): GameInfoMsg
  {
    if version < minRaceVersion then WithoutRaceFlag(full) else full
  }

  predicate Receives(c: ClientState)
  {
    c.hasPlayer && c.ingame
  }

  /** The messages a broadcast sends to the first n client slots. */
  function Broadcast(full: GameInfoMsg, clients: seq<ClientState>, minRaceVersion: int, n: nat): seq<InfoSend>
    requires n <= |clients|
  {
    if n == 0 then []
    else
      var earlier := Broadcast(full, clients, minRaceVersion, n - 1);
      if Receives(clients[n - 1])
      then earlier + [InfoSend(n - 1, InfoFor(full, clients[n - 1].version, minRaceVersion))]
      else earlier
  }

  /**
   * Old clients lose the race flag and nothing else; race-aware clients get
   * the message unchanged.
   */
  lemma RaceFlagMasking(full: GameInfoMsg, version: int, minRaceVersion: int)
    ensures var m := InfoFor(full, version, minRaceVersion);
      m == full.(gameFlags := m.gameFlags) &&
      (version < minRaceVersion ==>
        m.gameFlags & GameFlagRace == 0 && m.gameFlags | GameFlagRace == full.gameFlags | GameFlagRace) &&
      (version >= minRaceVersion ==> m == full)
  {
  }

  /**
   * A broadcast reaches every in-game client with a player exactly once, in
   * slot order, each with the message its version calls for, and nobody else.
   */
  lemma {:induction false} BroadcastExact(full: GameInfoMsg, clients: seq<ClientState>, minRaceVersion: int, n: nat)
    requires n <= |clients|
    ensures var b := Broadcast(full, clients, minRaceVersion, n);
      (forall k :: 0 <= k < |b| ==>
        b[k].to < n && Receives(clients[b[k].to]) &&
        b[k].msg == InfoFor(full, clients[b[k].to].version, minRaceVersion)) &&
      (forall k, l :: 0 <= k < l < |b| ==> b[k].to < b[l].to) &&
      (forall i :: 0 <= i < n && Receives(clients[i]) ==> exists k :: 0 <= k < |b| && b[k].to == i)
  {
    if n > 0 {
      BroadcastExact(full, clients, minRaceVersion, n - 1);
      var b := Broadcast(full, clients, minRaceVersion, n);
      var b' := Broadcast(full, clients, minRaceVersion, n - 1);
      assert forall k :: 0 <= k < |b'| ==> b[k] == b'[k];
      if Receives(clients[n - 1]) {
        assert b[|b'|].to == n - 1;
      }
    }
  }

  // ---- Teams ----

  /** Player p occupies a playing slot: it is on the red or the blue team. */
  predicate Playing(p: Option<Player>)
  {
    p.Some? && TeamRed <= p.value.team <= TeamBlue
  }

  /** The playing players among the first n slots, not counting slot `except` (-1 counts all). */
  function PlayingCount(ps: seq<Option<Player>>, except: int, n: nat): nat
    requires n <= |ps|
  {
    if n == 0 then 0
    else PlayingCount(ps, except, n - 1) + (if n - 1 != except && Playing(ps[n - 1]) then 1 else 0)
  }

  /** Whether client `id` may join `team` with `cap` playing slots. */
  predicate JoinAllowed(team: int, id: nat, ps: seq<Option<Player>>, cap: int)
    requires id < |ps|
  {
    team == TeamSpectators ||
    (ps[id].Some? && ps[id].value.team != TeamSpectators) ||
    PlayingCount(ps, id, |ps|) < cap
  }

  /**
   * Decides whether client `notThisId` may join `team`: joining the
   * spectators, or switching between playing teams, is always allowed;
   * otherwise the other playing players must leave a free playing slot.
   */
  method CanJoinTeam(team: int, notThisId: nat, players: seq<Option<Player>>, maxClients: int, spectatorSlots: int)
    returns (ok: bool)
    requires notThisId < |players|
    ensures ok == JoinAllowed(team, notThisId, players, maxClients - spectatorSlots)
  {
    if team == TeamSpectators || (players[notThisId].Some? && players[notThisId].value.team != TeamSpectators) {
      return true;
    }
    var red, blue := 0, 0;
    for i := 0 to |players|
      invariant red + blue == PlayingCount(players, notThisId, i)
    {
      if players[i].Some? && i != notThisId {
        var t := players[i].value.team;
        if t == TeamRed {
          red := red + 1;
        } else if t == TeamBlue {
          blue := blue + 1;
        }
      }
    }
    ok := red + blue < maxClients - spectatorSlots;
  }

  /** Replacing slot id changes the full count by the replaced and the new occupant. */
  lemma {:induction false} PlayingCountUpdate(ps: seq<Option<Player>>, id: nat, v: Option<Player>, n: nat)
    requires id < |ps| && n <= |ps|
    ensures PlayingCount(ps[id := v], -1, n) ==
      PlayingCount(ps, id, n) + (if id < n && Playing(v) then 1 else 0)
    ensures PlayingCount(ps, -1, n) ==
      PlayingCount(ps, id, n) + (if id < n && Playing(ps[id]) then 1 else 0)
  {
    if n > 0 {
      PlayingCountUpdate(ps, id, v, n - 1);
    }
  }

  /**
   * An allowed join never overfills the playing slots: if at most `cap`
   * players play before client id (absent, spectating or playing) moves to
   * `team`, at most `cap` play afterwards.
   */
  lemma JoinKeepsPlayingCap(team: int, id: nat, ps: seq<Option<Player>>, cap: int, lastActionTick: int)
    requires id < |ps|
    requires ps[id].None? || TeamSpectators <= ps[id].value.team <= TeamBlue
    requires PlayingCount(ps, -1, |ps|) <= cap
    requires JoinAllowed(team, id, ps, cap)
    ensures PlayingCount(ps[id := Some(Player(team, lastActionTick))], -1, |ps|) <= cap
  {
    PlayingCountUpdate(ps, id, Some(Player(team, lastActionTick)), |ps|);
  }

  /** Any team number below red is the spectators; every other one is red. */
  function ClampTeam(team: int): (r: int)
    ensures r == TeamSpectators <==> team < TeamRed
    ensures r == TeamRed <==> team >= TeamRed
  {
    if team < TeamRed then TeamSpectators else TeamRed
  }

  /** Red is "game"; every other team is "spectators". */
  function GetTeamName(team: int): (r: string)
    ensures r == "game" <==> team == TeamRed
    ensures r == "spectators" <==> team != TeamRed
  {
    if team == TeamRed then "game" else "spectators"
  }

  /** A clamped team is named after the side of red it came from. */
  lemma ClampedTeamName(team: int)
    ensures GetTeamName(ClampTeam(team)) == (if team < TeamRed then "spectators" else "game")
    ensures ClampTeam(ClampTeam(team)) == ClampTeam(team)
  {
  }

  /** Spawns never use the random score here, so the random input is a constant. */
  function NoRoll(i: nat): int
  {
    0
  }

  // ---- The controller ----

  /** Appending three pieces one at a time is appending their concatenation. */
  lemma AppendAssoc<T>(s: seq<T>, a: seq<T>, b: seq<T>, c: seq<T>)
    ensures s + a + b + c == s + (a + b + c)
  {
  }

  class Controller {
    var gameStartTick: int
    var matchCount: int
    var roundCount: int
    var suddenDeath: bool
    var gameFlags: bv32
    var gameType: string
    var gameInfo: GameInfo
    var currentRecord: real
    /** Spawn points by type (0 neutral, 1 red, 2 blue); the first numSpawnPoints[t] of row t are in use. */
    const spawnPoints: array2<Vec>
    const numSpawnPoints: array<int>
    const commands: CommandTable
    const world: GameWorld

    ghost predicate Valid()
      reads this, numSpawnPoints, commands, commands.slots
    {
      spawnPoints.Length0 == 3 && spawnPoints.Length1 == MaxSpawnPoints &&
      numSpawnPoints.Length == 3 &&
      (forall t :: 0 <= t < 3 ==> 0 <= numSpawnPoints[t] <= MaxSpawnPoints) &&
      commands.Valid()
    }

    /** The registered spawn points of type t, in registration order. */
    function SpawnPoints(t: nat): (ps: seq<Vec>)
      requires Valid() && t < 3
      reads this, spawnPoints, numSpawnPoints, commands, commands.slots
      ensures |ps| == numSpawnPoints[t]
    {
      seq(numSpawnPoints[t], i requires 0 <= i < MaxSpawnPoints reads spawnPoints => spawnPoints[t, i])
    }

    /** A controller for a fresh round starting at `tick`, with the configured limits and the built-in commands. */
    constructor (world: GameWorld, tick: int, scoreLimit: int, timeLimit: int)
      ensures Valid() && fresh(spawnPoints) && fresh(numSpawnPoints) && fresh(commands) && fresh(commands.slots)
      ensures this.world == world
      ensures gameStartTick == tick && matchCount == 0 && roundCount == 0 && !suddenDeath
      ensures gameFlags == 0 && gameType == "unknown" && gameInfo == GameInfo(scoreLimit, timeLimit, 0, 0)
      ensures currentRecord == 0.0
      ensures forall t :: 0 <= t < 3 ==> SpawnPoints(t) == []
      ensures BuiltinsThenFree(commands.slots[..])
    {
      var table := NewTableWithBuiltins();
      this.world := world;
      gameStartTick := tick;
      matchCount := 0;
      roundCount := 0;
      suddenDeath := false;
      gameFlags := 0;
      gameType := "unknown";
      gameInfo := GameInfo(scoreLimit, timeLimit, 0, 0);
      spawnPoints := new Vec[3, MaxSpawnPoints]((_, _) => Vec(0.0, 0.0));
      numSpawnPoints := new int[3](_ => 0);
      commands := table;
      currentRecord := 0.0;
    }

    method AppendSpawnPoint(t: nat, pos: Vec)
      requires Valid() && t < 3 && numSpawnPoints[t] < MaxSpawnPoints
      modifies spawnPoints, numSpawnPoints
      ensures Valid()
      ensures forall u :: 0 <= u < 3 ==>
        SpawnPoints(u) == if u == t then old(SpawnPoints(u)) + [pos] else old(SpawnPoints(u))
    {
      spawnPoints[t, numSpawnPoints[t]] := pos;
      numSpawnPoints[t] := numSpawnPoints[t] + 1;
    }

    /**
     * Creates what a map tile stands for: registers spawn points, appends
     * the created entities to the world and reports whether the tile was a
     * pickup.
     */
    method OnEntity(index: int, pos: Vec, layer: int, flags: int, number: int, tiles: TileQuery, bulletSound: bool)
      returns (consumed: bool)
      requires Valid()
      requires index >= 0 && SpawnTypeOf(index).Some? ==> numSpawnPoints[SpawnTypeOf(index).value] < MaxSpawnPoints
      modifies world`entities, spawnPoints, numSpawnPoints
      ensures Valid()
      ensures consumed <==> index >= 0 && PickupOf(index).Some?
      ensures world.entities == old(world.entities) + CreatedEntities(index, pos, layer, flags, number, tiles, bulletSound)
      ensures forall t :: 0 <= t < 3 ==>
        SpawnPoints(t) == if index >= 0 && SpawnTypeOf(index) == Some(t) then old(SpawnPoints(t)) + [pos] else old(SpawnPoints(t))
    {
      consumed := false;
      if index >= 0 {
        var x, y := CellX(pos), CellY(pos);
        var sides := Ring(tiles, x, y, layer, 1);
        var sides2 := Ring(tiles, x, y, layer, 2);
        ghost var start := world.entities;
        FirstChainEntities(index, pos, layer, flags, number, sides, bulletSound);
        consumed := SecondChainEntities(index, pos, layer, number, sides, sides2);
        AppendAssoc(start, FirstChain(index, pos, layer, flags, number, sides, bulletSound),
          SecondChain(index, pos, layer, number, sides, sides2), PickupEntity(index, pos, layer, number));
      }
    }

    /** Spawn points, doors and shotgun bullets: the first decision chain of OnEntity. */
    method FirstChainEntities(index: int, pos: Vec, layer: int, flags: int, number: int, sides: seq<int>, bulletSound: bool)
      requires Valid() && |sides| == 8
      requires SpawnTypeOf(index).Some? ==> numSpawnPoints[SpawnTypeOf(index).value] < MaxSpawnPoints
      modifies world`entities, spawnPoints, numSpawnPoints
      ensures Valid()
      ensures world.entities == old(world.entities) + FirstChain(index, pos, layer, flags, number, sides, bulletSound)
      ensures forall t :: 0 <= t < 3 ==>
        SpawnPoints(t) == if SpawnTypeOf(index) == Some(t) then old(SpawnPoints(t)) + [pos] else old(SpawnPoints(t))
    {
      if index == EntitySpawn {
        AppendSpawnPoint(0, pos);
      } else if index == EntitySpawnRed {
        AppendSpawnPoint(1, pos);
      } else if index == EntitySpawnBlue {
        AppendSpawnPoint(2, pos);
      } else if index == EntityDoor {
        for i := 0 to 8
          modifies world`entities
          invariant world.entities == old(world.entities) + DoorBeams(pos, sides, number, i)
        {
          if IsLengthTile(sides[i]) {
            world.entities := world.entities + [Door(pos, i, BeamLength(sides[i]), number)];
          }
        }
      } else if index == EntityCrazyShotgunEx {
        var dir := ShotgunExDir(flags);
        world.entities := world.entities + [Projectile(pos, dir, Bounce(dir), true, true, bulletSound, layer, number)];
      } else if index == EntityCrazyShotgun {
        var dir := ShotgunDir(flags);
        world.entities := world.entities + [Projectile(pos, dir, Bounce(dir), true, false, true, layer, number)];
      }
    }

    /**
     * Pickups, lights, draggers and turrets: the second decision chain of
     * OnEntity; a selected pickup is created after the chain and reported.
     */
    method SecondChainEntities(index: int, pos: Vec, layer: int, number: int, sides: seq<int>, sides2: seq<int>)
      returns (consumed: bool)
      requires |sides| == 8 && |sides2| == 8
      modifies world`entities
      ensures consumed <==> PickupOf(index).Some?
      ensures world.entities == old(world.entities) + SecondChain(index, pos, layer, number, sides, sides2) +
        PickupEntity(index, pos, layer, number)
    {
      var pickup := PickupOf(index);
      if pickup.Some? {
      } else if IsLightTile(index) {
        var angular := AngularSpeed(index);
        for i := 0 to 8
          invariant world.entities == old(world.entities) + LightBeams(pos, sides, sides2, layer, number, angular, i)
        {
          if IsLengthTile(sides[i]) {
            world.entities := world.entities + [MakeLight(pos, i, sides[i], sides2[i], layer, number, angular)];
          }
        }
      } else if IsDraggerTile(index) {
        world.entities := world.entities + [Dragger(pos, DraggerStrength(index), false, layer, number)];
      } else if IsDraggerNwTile(index) {
        world.entities := world.entities + [Dragger(pos, DraggerStrength(index), true, layer, number)];
      } else if index == EntityPlasmaE {
        world.entities := world.entities + [Gun(pos, false, true, layer, number)];
      } else if index == EntityPlasmaF {
        world.entities := world.entities + [Gun(pos, true, false, layer, number)];
      } else if index == EntityPlasma {
        world.entities := world.entities + [Gun(pos, true, true, layer, number)];
      } else if index == EntityPlasmaU {
        world.entities := world.entities + [Gun(pos, false, false, layer, number)];
      }
      consumed := pickup.Some?;
      if consumed {
        world.entities := world.entities + [Pickup(pos, pickup.value.0, pickup.value.1, layer, number)];
      }
    }

    /**
     * Where a player of `team` would spawn: nowhere for spectators;
     * otherwise the first neutral spawn point with the lowest danger score,
     * each point at its first clear offset.
     */
    method CanSpawn(team: int, w: World) returns (pos: Option<Vec>)
      requires Valid()
      ensures team == TeamSpectators ==> pos.None?
      ensures team != TeamSpectators ==>
        (pos.Some? <==> exists i :: 0 <= i < |SpawnPoints(0)| && Candidate(w, SpawnPoints(0), i).Some?)
      ensures pos.Some? ==>
        exists i :: 0 <= i < |SpawnPoints(0)| && BestPoint(FreshEval(-1, false), w, SpawnPoints(0), NoRoll, i, |SpawnPoints(0)|) &&
          pos.value == Candidate(w, SpawnPoints(0), i).value
    {
      if team == TeamSpectators {
        return None;
      }
      var points := SpawnPoints(0);
      var eval := FreshEval(-1, false);
      var r := EvaluateSpawnType(eval, w, points, NoRoll);
      assert points == SpawnPoints(0);
      assert r.got <==> exists i :: 0 <= i < |points| && Candidate(w, points, i).Some?;
      if r.got {
        assert !NothingBetter(eval, w, points, NoRoll, |points|);
        ghost var i :| 0 <= i < |points| && KeptPoint(eval, r, w, points, NoRoll, i, |points|);
        assert BestPoint(eval, w, points, NoRoll, i, |points|) && r.pos == Candidate(w, points, i).value;
        pos := Some(r.pos);
      } else {
        pos := None;
      }
    }

    /** Asks the world to reset at the end of this tick. */
    method ResetGame()
      modifies world`resetRequested
      ensures world.resetRequested
    {
      world.resetRequested := true;
    }

    /**
     * Starts a round: resets the world and the round counters, unpauses,
     * and announces the match to the demo recorder and the console.
     */
    method StartRound() returns (events: seq<ServerEvent>)
      requires Valid()
      modifies this`roundCount, this`suddenDeath, world`resetRequested, world`paused
      ensures Valid()
      ensures roundCount == 0 && !suddenDeath
      ensures world.resetRequested && !world.paused
      ensures events == [DemoAutoStart, ConsoleDebug("game", StartMatchLine(gameType, gameFlags & GameFlagTeams))]
    {
      ResetGame();
      roundCount := 0;
      suddenDeath := false;
      world.paused := false;
      var teamplay := gameFlags & GameFlagTeams;
      events := [DemoAutoStart, ConsoleDebug("game", StartMatchLine(gameType, teamplay))];
    }

    /**
     * The controller's snapshot items for a viewer, given room for `room`
     * more items: game data, race data, and for the demo recorder the game
     * info, stopping at the first item that does not fit.
     */
    method Snap(viewer: Option<Viewer>, room: nat) returns (items: seq<SnapItem>)
      ensures |items| == Min(room, if viewer.None? then 3 else 2)
      ensures |items| > 0 ==> items[0] == GameData(StartTick(viewer, gameStartTick), StateFlags(suddenDeath), 0)
      ensures |items| > 1 ==> items[1] == GameDataRace(BestTime(currentRecord), 0, 0)
      ensures |items| > 2 ==> items[2] == DemoGameInfo(gameFlags, 0, 0, 0, 0)
    {
      items := [];
      if room == 0 {
        return;
      }
      var watched: Option<RaceRun> := None;
      if viewer.Some? && viewer.value.player.Some? {
        var p := viewer.value.player.value;
        if p.team == TeamSpectators || p.paused {
          watched := p.spectatedRun;
        }
      }
      var start := gameStartTick;
      if watched.Some? && watched.value.started {
        start := watched.value.startTime;
      } else if watched.None? && viewer.Some? && viewer.value.ownRun.Some? && viewer.value.ownRun.value.started {
        start := viewer.value.ownRun.value.startTime;
      }
      var flags: bv32 := 0;
      if suddenDeath {
        flags := flags | GameStateFlagSuddenDeath;
      }
      items := [GameData(start, flags, 0)];
      if room == 1 {
        return;
      }
      var best := if currentRecord == 0.0 then -1 else Trunc(currentRecord * 1000.0);
      items := items + [GameDataRace(best, 0, 0)];
      if viewer.None? && room > 2 {
        items := items + [DemoGameInfo(gameFlags, 0, 0, 0, 0)];
      }
    }

    /** The full game-info message of this controller. */
    function InfoMessage(): GameInfoMsg
      reads this
    {
      GameInfoMsg(gameFlags, gameInfo.scoreLimit, gameInfo.timeLimit, gameInfo.matchNum, gameInfo.matchCurrent)
    }

    /**
     * Sends the game info to one client, or with clientId -1 to every
     * in-game client with a player; older clients get it without the race flag.
     */
    method UpdateGameInfo(clientId: int, clients: seq<ClientState>, minRaceVersion: int) returns (sends: seq<InfoSend>)
      requires clientId == -1 || 0 <= clientId < |clients|
      ensures clientId == -1 ==> sends == Broadcast(InfoMessage(), clients, minRaceVersion, |clients|)
      ensures clientId != -1 ==>
        sends == [InfoSend(clientId, InfoFor(InfoMessage(), clients[clientId].version, minRaceVersion))]
    {
      var full := GameInfoMsg(gameFlags, gameInfo.scoreLimit, gameInfo.timeLimit, gameInfo.matchNum, gameInfo.matchCurrent);
      var noRace := WithoutRaceFlag(full);
      if clientId == -1 {
        sends := [];
        for i := 0 to |clients|
          invariant sends == Broadcast(full, clients, minRaceVersion, i)
        {
          if !clients[i].hasPlayer || !clients[i].ingame {
            continue;
          }
          var msg := if clients[i].version < minRaceVersion then noRace else full;
          assert msg == InfoFor(full, clients[i].version, minRaceVersion);
          sends := sends + [InfoSend(i, msg)];
        }
      } else {
        var msg := if clients[clientId].version < minRaceVersion then noRace else full;
        assert msg == InfoFor(full, clients[clientId].version, minRaceVersion);
        sends := [InfoSend(clientId, msg)];
      }
    }

    /**
     * A chat command from a client: the first registered command of that
     * name runs its handler with the arguments; a command without a handler,
     * or an unknown one, goes to the generic executor with the arguments.
     */
    method OnPlayerCommand(client: int, name: string, args: string) returns (action: Action)
      requires Valid()
      ensures var k := FindCommand(commands.slots[..], name);
        (action.Invoke? <==> k.Some? && commands.slots[k.value].cmd.callback.Some?) &&
        (action.Invoke? ==> action == Invoke(commands.slots[k.value].cmd.callback.value, client, args)) &&
        (action.ExecuteChat? ==> action == ExecuteChat(args, client))
    {
      var k := commands.GetCommand(name);
      if k.Some? && commands.slots[k.value].cmd.callback.Some? {
        action := Invoke(commands.slots[k.value].cmd.callback.value, client, args);
      } else {
        action := ExecuteChat(args, client);
      }
    }
  }
}
