/**
 * Constants shared by the game controller: level tile indices, tile
 * orientation flags, team identifiers and network flag bits.
 *
 * The header that declares them (game/mapitems.h and the protocol
 * definitions) is not part of this model; the values below follow the
 * DDNet tile numbering that the controller decodes.  What the proofs rely
 * on is their relative layout: the contiguous ranges and the centre
 * LaserStop of the rotating-light range.
 */
module MapItems {
  // Spawn tiles
  const EntitySpawn := 1
  const EntitySpawnRed := 2
  const EntitySpawnBlue := 3

  // Pickups
  const EntityArmor1 := 6
  const EntityHealth1 := 7
  const EntityWeaponShotgun := 8
  const EntityWeaponGrenade := 9
  const EntityPowerupNinja := 10
  const EntityWeaponLaser := 11

  // Rotating lights: a range centred on LaserStop
  const EntityLaserFastCcw := 12
  const EntityLaserNormalCcw := 13
  const EntityLaserSlowCcw := 14
  const EntityLaserStop := 15
  const EntityLaserSlowCw := 16
  const EntityLaserNormalCw := 17
  const EntityLaserFastCw := 18

  // Laser modifiers sampled from neighbouring tiles
  const EntityLaserShort := 19
  const EntityLaserMedium := 20
  const EntityLaserLong := 21
  const EntityLaserCSlow := 22
  const EntityLaserCNormal := 23
  const EntityLaserCFast := 24
  const EntityLaserOSlow := 25
  const EntityLaserONormal := 26
  const EntityLaserOFast := 27

  // Turrets
  const EntityPlasmaE := 29
  const EntityPlasmaF := 30
  const EntityPlasma := 31
  const EntityPlasmaU := 32

  // Instant shotgun bullets
  const EntityCrazyShotgunEx := 33
  const EntityCrazyShotgun := 34

  // Draggers, cardinal and behind-walls variants
  const EntityDraggerWeak := 42
  const EntityDraggerNormal := 43
  const EntityDraggerStrong := 44
  const EntityDraggerWeakNw := 45
  const EntityDraggerNormalNw := 46
  const EntityDraggerStrongNw := 47

  const EntityDoor := 49

  // Tile orientation flags
  const TileFlagVFlip := 1
  const TileFlagHFlip := 2
  const TileFlagRotate := 8
  const Rotation90 := TileFlagRotate
  const Rotation180 := 3   // TileFlagVFlip | TileFlagHFlip

  // Teams
  const TeamSpectators := -1
  const TeamRed := 0
  const TeamBlue := 1

  // Game flags and game-state flags as they travel in network messages
  const GameFlagTeams: bv32 := 1
  const GameFlagRace: bv32 := 8
  const GameStateFlagSuddenDeath: bv32 := 2

  /** Size of the world grid cell, in world units. */
  const TileSize := 32
}
