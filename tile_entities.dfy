/**
 * Decoding of one level tile into the entities it creates.
 *
 * A tile is given by its index, its world position (the centre of its
 * cell), its layer, its orientation flags and its group number.  The
 * decoder samples the eight neighbouring cells (and, for rotating lights,
 * the eight cells two steps away) through the collision map's tile query.
 * Created entities are described by configuration records; angles are
 * direction indices (beam direction i stands for i * 45 degrees, shotgun
 * direction d for d * 90 degrees) and angular speeds are counted in units
 * of pi/360 radians per tick.
 */
module TileEntities {
  import opened Wrappers
  import opened MapItems
  import opened Spawn

  datatype Powerup = PowerupHealth | PowerupArmor | PowerupWeapon | PowerupNinja
  datatype Weapon = WeaponHammer | WeaponGun | WeaponShotgun | WeaponGrenade | WeaponLaser | WeaponNinja

  /**
   * The configuration of a created entity.  A projectile is always a
   * shotgun bullet without owner, span -2 and force 0; `impactSound` says
   * whether it plays the grenade explosion sound on impact.  A light's
   * `speed` is None when the decoder leaves the entity's own default.
   */
  datatype Entity =
    | Door(pos: Vec, dir: nat, length: int, number: int)
    | Light(pos: Vec, dir: nat, length: int, layer: int, number: int,
            angularSpeed: int, speed: Option<int>, curveLength: int)
    | Projectile(pos: Vec, dir: nat, bounce: int, freeze: bool, explosive: bool,
                 impactSound: bool, layer: int, number: int)
    | Dragger(pos: Vec, strength: int, behindWalls: bool, layer: int, number: int)
    | Gun(pos: Vec, freeze: bool, explosive: bool, layer: int, number: int)
    | Pickup(pos: Vec, powerup: Powerup, subtype: Weapon, layer: int, number: int)

  /** The collision map's tile query: the entity index at cell (x, y) of a layer. */
  type TileQuery = (int, int, int) -> int

  /** Conversion of a real to an integer, truncating toward zero. */
  function Trunc(r: real): (n: int)
    ensures r >= 0.0 ==> n as real <= r < n as real + 1.0
    ensures r < 0.0 ==> n as real - 1.0 < r <= n as real
  {
    if r >= 0.0 then r.Floor else -((-r).Floor)
  }

  /** The grid cell of a tile centred at pos. */
  function CellX(pos: Vec): int { Trunc((pos.x - 16.0) / 32.0) }
  function CellY(pos: Vec): int { Trunc((pos.y - 16.0) / 32.0) }

  /**
   * The eight cells at distance d around (x, y), in direction order:
   * below, below-right, right, above-right, above, above-left, left, below-left
   * (the y axis points down).
   */
  function Ring(tiles: TileQuery, x: int, y: int, layer: int, d: int): (r: seq<int>)
    ensures |r| == 8
  {
    [tiles(x, y + d, layer), tiles(x + d, y + d, layer), tiles(x + d, y, layer), tiles(x + d, y - d, layer),
     tiles(x, y - d, layer), tiles(x - d, y - d, layer), tiles(x - d, y, layer), tiles(x - d, y + d, layer)]
  }

  predicate IsLengthTile(v: int)
  {
    EntityLaserShort <= v <= EntityLaserLong
  }

  /** Beam length selected by a length tile: three cells per tier above the shortest. */
  function BeamLength(v: int): (r: int)
    requires IsLengthTile(v)
    ensures r == 96 + 96 * (v - EntityLaserShort)
    ensures r == 96 || r == 192 || r == 288
  {
    32 * 3 + 32 * (v - EntityLaserShort) * 3
  }

  // ---- Doors ----

  /** The doors created for the first n neighbours of a door tile. */
  function DoorBeams(pos: Vec, sides: seq<int>, number: int, n: nat): seq<Entity>
    requires n <= |sides|
  {
    if n == 0 then []
    else
      var earlier := DoorBeams(pos, sides, number, n - 1);
      if IsLengthTile(sides[n - 1]) then earlier + [Door(pos, n - 1, BeamLength(sides[n - 1]), number)] else earlier
  }

  /** Number of length tiles among the first n neighbours. */
  function CountLengthTiles(sides: seq<int>, n: nat): nat
    requires n <= |sides|
  {
    if n == 0 then 0 else CountLengthTiles(sides, n - 1) + (if IsLengthTile(sides[n - 1]) then 1 else 0)
  }

  /**
   * One door per neighbour holding a length tile, in direction order, each
   * pointing in that direction with the length the tile selects.
   */
  lemma {:induction false} DoorBeamsExact(pos: Vec, sides: seq<int>, number: int, n: nat)
    requires n <= |sides|
    ensures var b := DoorBeams(pos, sides, number, n);
      |b| == CountLengthTiles(sides, n) &&
      (forall k :: 0 <= k < |b| ==>
        b[k].Door? && b[k].pos == pos && b[k].number == number && b[k].dir < n &&
        IsLengthTile(sides[b[k].dir]) && b[k].length == 96 + 96 * (sides[b[k].dir] - EntityLaserShort)) &&
      (forall k, l :: 0 <= k < l < |b| ==> b[k].dir < b[l].dir) &&
      (forall i :: 0 <= i < n && IsLengthTile(sides[i]) ==> exists k :: 0 <= k < |b| && b[k].dir == i)
  {
    if n > 0 {
      DoorBeamsExact(pos, sides, number, n - 1);
      var b := DoorBeams(pos, sides, number, n);
      var b' := DoorBeams(pos, sides, number, n - 1);
      assert forall k :: 0 <= k < |b'| ==> b[k] == b'[k];
      if IsLengthTile(sides[n - 1]) {
        assert b[|b'|].dir == n - 1;
      }
    }
  }

  /** A door tile with a shortest length tile below it and no other length tile makes one door of length 96 in direction 0. */
  lemma SingleDoorExample(pos: Vec, sides: seq<int>, number: int)
    requires |sides| == 8 && sides[0] == EntityLaserShort
    requires forall i :: 1 <= i < 8 ==> !IsLengthTile(sides[i])
    ensures DoorBeams(pos, sides, number, 8) == [Door(pos, 0, 96, number)]
  {
    assert DoorBeams(pos, sides, number, 1) == [Door(pos, 0, 96, number)];
    assert DoorBeams(pos, sides, number, 2) == DoorBeams(pos, sides, number, 1);
    assert DoorBeams(pos, sides, number, 3) == DoorBeams(pos, sides, number, 2);
    assert DoorBeams(pos, sides, number, 4) == DoorBeams(pos, sides, number, 3);
    assert DoorBeams(pos, sides, number, 5) == DoorBeams(pos, sides, number, 4);
    assert DoorBeams(pos, sides, number, 6) == DoorBeams(pos, sides, number, 5);
    assert DoorBeams(pos, sides, number, 7) == DoorBeams(pos, sides, number, 6);
  }

  // ---- Rotating lights ----

  predicate IsLightTile(index: int)
  {
    EntityLaserFastCcw <= index <= EntityLaserFastCw
  }

  /** Rotation sense of a light tile: +1 below the stop index, 0 at it, -1 above it. */
  function RotationSense(index: int): (m: int)
    ensures m == 1 <==> index < EntityLaserStop
    ensures m == 0 <==> index == EntityLaserStop
    ensures m == -1 <==> index > EntityLaserStop
  {
    var ind := index - EntityLaserStop;
    if ind < 0 then 1 else if ind == 0 then 0 else -1
  }

  /** Speed tier of a light tile: its distance from the stop index. */
  function SpeedTier(index: int): (t: nat)
    ensures t as int == index - EntityLaserStop || t as int == EntityLaserStop - index
    ensures IsLightTile(index) ==> t <= 3
  {
    var ind := index - EntityLaserStop;
    if ind < 0 then -ind else ind
  }

  /** Angular step of a tier, in units of pi/360: 0, pi/360, pi/180 and pi/90. */
  function TierStep(tier: nat): int
  {
    if tier == 0 then 0 else if tier == 1 then 1 else if tier == 2 then 2 else if tier == 3 then 4 else 0
  }

  /** Signed angular speed of a light tile, in units of pi/360. */
  function AngularSpeed(index: int): int
  {
    TierStep(SpeedTier(index)) * RotationSense(index)
  }

  /**
   * Rotation decodes as a sense and a step: the sign of the angular speed
   * is the rotation sense, its magnitude grows strictly with the distance
   * from the stop index, and opposite tiles turn at opposite speeds.
   */
  lemma AngularSpeedDecoding(index: int, index': int)
    requires IsLightTile(index) && IsLightTile(index')
    ensures AngularSpeed(index) > 0 <==> index < EntityLaserStop
    ensures AngularSpeed(index) == 0 <==> index == EntityLaserStop
    ensures AngularSpeed(index) < 0 <==> index > EntityLaserStop
    ensures SpeedTier(index) < SpeedTier(index') ==>
      (if AngularSpeed(index) < 0 then -AngularSpeed(index) else AngularSpeed(index)) <
      (if AngularSpeed(index') < 0 then -AngularSpeed(index') else AngularSpeed(index'))
    ensures index + index' == 2 * EntityLaserStop ==> AngularSpeed(index) == -AngularSpeed(index')
  {
  }

  predicate IsCurveTile(v: int)
  {
    EntityLaserCSlow <= v <= EntityLaserCFast
  }

  predicate IsOscillateTile(v: int)
  {
    EntityLaserOSlow <= v <= EntityLaserOFast
  }

  /** The light created in direction i: its motion comes from the ring-2 value v2. */
  function MakeLight(pos: Vec, i: nat, v: int, v2: int, layer: int, number: int, angular: int): Entity
    requires IsLengthTile(v)
  {
    var length := BeamLength(v);
    if IsCurveTile(v2) then
      Light(pos, i, length, layer, number, angular, Some(1 + (v2 - EntityLaserCSlow) * 2), length)
    else if IsOscillateTile(v2) then
      Light(pos, i, length, layer, number, angular, Some(1 + (v2 - EntityLaserOSlow) * 2), 0)
    else
      Light(pos, i, length, layer, number, angular, None, length)
  }

  /**
   * e is the light for a neighbour below n holding a length tile: it has the
   * tile's angular speed and the length of that tile, and the ring-2 value
   * in the same direction picks curving (speed 1, 3, 5, curve length equal
   * to the length), oscillating (speed 1, 3, 5, curve length 0) or static
   * (curve length equal to the length).
   */
  ghost predicate LightFor(e: Entity, pos: Vec, sides: seq<int>, sides2: seq<int>, angular: int, n: nat)
    requires n <= |sides| && n <= |sides2|
  {
    e.Light? && e.pos == pos && e.dir < n && e.angularSpeed == angular &&
    IsLengthTile(sides[e.dir]) && e.length == 96 + 96 * (sides[e.dir] - EntityLaserShort) &&
    (IsCurveTile(sides2[e.dir]) ==> e.speed == Some(1 + 2 * (sides2[e.dir] - EntityLaserCSlow)) && e.curveLength == e.length) &&
    (IsOscillateTile(sides2[e.dir]) ==> e.speed == Some(1 + 2 * (sides2[e.dir] - EntityLaserOSlow)) && e.curveLength == 0) &&
    (!IsCurveTile(sides2[e.dir]) && !IsOscillateTile(sides2[e.dir]) ==> e.speed.None? && e.curveLength == e.length)
  }

  /** The light made for neighbour i meets LightFor for every bound past i. */
  lemma MakeLightShape(pos: Vec, sides: seq<int>, sides2: seq<int>, layer: int, number: int, angular: int, i: nat, n: nat)
    requires i < n <= |sides| && n <= |sides2| && IsLengthTile(sides[i])
    ensures var e := MakeLight(pos, i, sides[i], sides2[i], layer, number, angular);
      e.dir == i && LightFor(e, pos, sides, sides2, angular, n)
  {
  }

  /** The lights created for the first n neighbours of a light tile. */
  function LightBeams(pos: Vec, sides: seq<int>, sides2: seq<int>, layer: int, number: int, angular: int, n: nat): seq<Entity>
    requires n <= |sides| && n <= |sides2|
  {
    if n == 0 then []
    else
      var earlier := LightBeams(pos, sides, sides2, layer, number, angular, n - 1);
      if IsLengthTile(sides[n - 1])
      then earlier + [MakeLight(pos, n - 1, sides[n - 1], sides2[n - 1], layer, number, angular)]
      else earlier
  }

  /** One light per neighbour holding a length tile, in direction order, each as LightFor describes. */
  lemma {:induction false} LightBeamsExact(pos: Vec, sides: seq<int>, sides2: seq<int>, layer: int, number: int, angular: int, n: nat)
    requires n <= |sides| && n <= |sides2|
    ensures var b := LightBeams(pos, sides, sides2, layer, number, angular, n);
      |b| == CountLengthTiles(sides, n) &&
      (forall k :: 0 <= k < |b| ==> LightFor(b[k], pos, sides, sides2, angular, n)) &&
      (forall k, l :: 0 <= k < l < |b| ==> b[k].dir < b[l].dir) &&
      (forall i :: 0 <= i < n && IsLengthTile(sides[i]) ==> exists k :: 0 <= k < |b| && b[k].dir == i)
  {
    if n > 0 {
      LightBeamsExact(pos, sides, sides2, layer, number, angular, n - 1);
      var b := LightBeams(pos, sides, sides2, layer, number, angular, n);
      var b' := LightBeams(pos, sides, sides2, layer, number, angular, n - 1);
      assert forall k :: 0 <= k < |b'| ==> LightFor(b'[k], pos, sides, sides2, angular, n);
      if IsLengthTile(sides[n - 1]) {
        MakeLightShape(pos, sides, sides2, layer, number, angular, n - 1, n);
        assert b == b' + [MakeLight(pos, n - 1, sides[n - 1], sides2[n - 1], layer, number, angular)];
        assert forall k :: 0 <= k < |b'| ==> b[k] == b'[k];
        assert b[|b'|].dir == n - 1;
      } else {
        assert b == b';
      }
    }
  }

  // ---- Draggers, turrets, shotgun bullets, pickups ----

  predicate IsDraggerTile(index: int)
  {
    EntityDraggerWeak <= index <= EntityDraggerStrong
  }

  predicate IsDraggerNwTile(index: int)
  {
    EntityDraggerWeakNw <= index <= EntityDraggerStrongNw
  }

  /** Dragger strength: 1 for weak, 2 for normal, 3 for strong, in both variants. */
  function DraggerStrength(index: int): (s: int)
    requires IsDraggerTile(index) || IsDraggerNwTile(index)
    ensures 1 <= s <= 3
    ensures s == 1 <==> index == EntityDraggerWeak || index == EntityDraggerWeakNw
    ensures s == 3 <==> index == EntityDraggerStrong || index == EntityDraggerStrongNw
  {
    if IsDraggerTile(index) then index - EntityDraggerWeak + 1 else index - EntityDraggerWeakNw + 1
  }

  /** Direction of an explosive crazy-shotgun bullet, from the tile's orientation flags. */
  function ShotgunExDir(flags: int): nat
  {
    if flags == 0 then 0
    else if flags == Rotation90 then 1
    else if flags == Rotation180 then 2
    else 3
  }

  /** Direction of a plain crazy-shotgun bullet; the vertical-and-horizontal flip is the sum of the two disjoint flag bits. */
  function ShotgunDir(flags: int): nat
  {
    if flags == 0 then 0
    else if flags == TileFlagRotate then 1
    else if flags == TileFlagVFlip + TileFlagHFlip then 2
    else 3
  }

  /** Bounce count of a bullet: 2 in directions 0 and 2, 1 in directions 1 and 3. */
  function Bounce(dir: nat): int
  {
    2 - dir % 2
  }

  /**
   * The flag table is the same for both bullet tiles and total: no flags
   * give direction 0, a quarter turn 1, a half turn 2, anything else 3;
   * a bullet bounces twice along directions 0 and 2 and once along 1 and 3.
   */
  lemma ShotgunDirections(flags: int)
    ensures ShotgunExDir(flags) == ShotgunDir(flags) <= 3
    ensures flags == 0 ==> ShotgunDir(flags) == 0
    ensures flags == Rotation90 ==> ShotgunDir(flags) == 1
    ensures flags == Rotation180 ==> ShotgunDir(flags) == 2
    ensures flags != 0 && flags != Rotation90 && flags != Rotation180 ==> ShotgunDir(flags) == 3
    ensures Bounce(ShotgunDir(flags)) == (if ShotgunDir(flags) % 2 == 0 then 2 else 1)
  {
  }

  /** The pickup a tile creates, with its weapon sub-type (Hammer standing for sub-type 0). */
  function PickupOf(index: int): Option<(Powerup, Weapon)>
  {
    if index == EntityArmor1 then Some((PowerupArmor, WeaponHammer))
    else if index == EntityHealth1 then Some((PowerupHealth, WeaponHammer))
    else if index == EntityWeaponShotgun then Some((PowerupWeapon, WeaponShotgun))
    else if index == EntityWeaponGrenade then Some((PowerupWeapon, WeaponGrenade))
    else if index == EntityWeaponLaser then Some((PowerupWeapon, WeaponLaser))
    else if index == EntityPowerupNinja then Some((PowerupNinja, WeaponNinja))
    else None
  }

  // ---- The whole tile ----

  /** Spawn list a tile registers with: 0 neutral, 1 red, 2 blue. */
  function SpawnTypeOf(index: int): Option<nat>
  {
    if index == EntitySpawn then Some(0)
    else if index == EntitySpawnRed then Some(1)
    else if index == EntitySpawnBlue then Some(2)
    else None
  }

  /** Entities of the first decision chain: doors and shotgun bullets. */
  function FirstChain(index: int, pos: Vec, layer: int, flags: int, number: int, sides: seq<int>, bulletSound: bool): seq<Entity>
    requires |sides| == 8
  {
    if SpawnTypeOf(index).Some? then []
    else if index == EntityDoor then DoorBeams(pos, sides, number, 8)
    else if index == EntityCrazyShotgunEx then
      var dir := ShotgunExDir(flags);
      [Projectile(pos, dir, Bounce(dir), true, true, bulletSound, layer, number)]
    else if index == EntityCrazyShotgun then
      var dir := ShotgunDir(flags);
      [Projectile(pos, dir, Bounce(dir), true, false, true, layer, number)]
    else []
  }

  /** Entities of the second decision chain, apart from the pickup: lights, draggers, turrets. */
  function SecondChain(index: int, pos: Vec, layer: int, number: int, sides: seq<int>, sides2: seq<int>): seq<Entity>
    requires |sides| == 8 && |sides2| == 8
  {
    if PickupOf(index).Some? then []
    else if IsLightTile(index) then LightBeams(pos, sides, sides2, layer, number, AngularSpeed(index), 8)
    else if IsDraggerTile(index) then [Dragger(pos, DraggerStrength(index), false, layer, number)]
    else if IsDraggerNwTile(index) then [Dragger(pos, DraggerStrength(index), true, layer, number)]
    else if index == EntityPlasmaE then [Gun(pos, false, true, layer, number)]
    else if index == EntityPlasmaF then [Gun(pos, true, false, layer, number)]
    else if index == EntityPlasma then [Gun(pos, true, true, layer, number)]
    else if index == EntityPlasmaU then [Gun(pos, false, false, layer, number)]
    else []
  }

  /** Every entity a tile creates, in creation order. */
  function CreatedEntities(index: int, pos: Vec, layer: int, flags: int, number: int, tiles: TileQuery, bulletSound: bool): seq<Entity>
  {
    if index < 0 then []
    else
      var x, y := CellX(pos), CellY(pos);
      var sides := Ring(tiles, x, y, layer, 1);
      var sides2 := Ring(tiles, x, y, layer, 2);
      FirstChain(index, pos, layer, flags, number, sides, bulletSound) +
      SecondChain(index, pos, layer, number, sides, sides2) +
      PickupEntity(index, pos, layer, number)
  }

  /** The pickup the second chain selected, created after everything else. */
  function PickupEntity(index: int, pos: Vec, layer: int, number: int): seq<Entity>
  {
    match PickupOf(index)
    case Some(p) => [Pickup(pos, p.0, p.1, layer, number)]
    case None => []
  }

  /**
   * What a tile decodes to, by kind: nothing for a negative or unknown
   * index, exactly one pickup for a pickup tile, one bullet for a shotgun
   * tile, one dragger or turret for those tiles, one beam per length
   * neighbour for doors and lights.
   */
  lemma CreatedEntitiesByKind(index: int, pos: Vec, layer: int, flags: int, number: int, tiles: TileQuery, bulletSound: bool)
    ensures var es := CreatedEntities(index, pos, layer, flags, number, tiles, bulletSound);
      var sides := Ring(tiles, CellX(pos), CellY(pos), layer, 1);
      (index < 0 || SpawnTypeOf(index).Some? ==> es == []) &&
      (PickupOf(index).Some? ==>
        |es| == 1 && es[0].Pickup? && (es[0].powerup, es[0].subtype) == PickupOf(index).value) &&
      (index == EntityCrazyShotgunEx || index == EntityCrazyShotgun ==>
        |es| == 1 && es[0].Projectile? && es[0].freeze && (es[0].explosive <==> index == EntityCrazyShotgunEx)) &&
      (IsDraggerTile(index) || IsDraggerNwTile(index) ==>
        |es| == 1 && es[0].Dragger? && es[0].strength == DraggerStrength(index) &&
        (es[0].behindWalls <==> IsDraggerNwTile(index))) &&
      (index == EntityDoor || IsLightTile(index) ==> |es| == CountLengthTiles(sides, 8)) &&
      (EntityPlasmaE <= index <= EntityPlasmaU ==>
        |es| == 1 && es[0].Gun? &&
        (es[0].freeze <==> index == EntityPlasmaF || index == EntityPlasma) &&
        (es[0].explosive <==> index == EntityPlasmaE || index == EntityPlasma)) &&
      ((index >= 0 && SpawnTypeOf(index).None? && PickupOf(index).None? && index != EntityDoor &&
        index != EntityCrazyShotgunEx && index != EntityCrazyShotgun && !IsLightTile(index) &&
        !IsDraggerTile(index) && !IsDraggerNwTile(index) && !(EntityPlasmaE <= index <= EntityPlasmaU))
       ==> es == [])
  {
    if index >= 0 {
      var sides := Ring(tiles, CellX(pos), CellY(pos), layer, 1);
      var sides2 := Ring(tiles, CellX(pos), CellY(pos), layer, 2);
      DoorBeamsExact(pos, sides, number, 8);
      LightBeamsExact(pos, sides, sides2, layer, number, AngularSpeed(index), 8);
    }
  }
}
