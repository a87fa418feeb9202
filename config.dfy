/** The game constants the simulation engine reads (python/src/config.py). */
module Config {

  /** How long the race is. */
  const TrackLength: int := 30

  /** Number of lanes. */
  const NumLanes: int := 4

  /** Chance to spawn an obstacle per tick. */
  const ObstacleSpawnRate: real := 0.1
}
