/**
 The world of the falling-rain game: its tuned constants, the falling entities and the
 axis-aligned collision test between an entity and the player.  Positions and times are
 modelled as exact reals; times are milliseconds, positions are scene units.
 */
module World {

  /** Horizontal bounds of the playfield. */
  const WorldMinX: real := -8.0
  const WorldMaxX: real := 8.0

  /** Per-frame fall of a rain entity; the player falls with a ninth of it. */
  const Gravity: real := 0.17
  /** Probability that a spawned entity is a cat rather than lava. */
  const CatChance: real := 0.1
  /** How long one collected cat keeps boosting the player (ms). */
  const CatBoostDuration: real := 8000.0
  /** Speed added by each active cat boost. */
  const CatBoostAmount: real := 0.2

  const MoveSpeed: real := 0.12
  const JumpForce: real := 0.31
  /** The height the player stands at; the player never goes below it. */
  const GroundY: real := 1.3

  const InitialSpawnDelay: real := 1200.0
  const SpawnDecay: real := 0.985
  const MinSpawnDelay: real := 150.0
  /** New entities appear at this height. */
  const SpawnHeight: real := 16.0
  /** An entity that falls below this height is removed. */
  const DespawnY: real := -5.0

  /** Half-extents of the collision box around the player. */
  const HitHalfWidth: real := 0.7
  const HitHalfHeight: real := 1.3

  datatype Option<T> = None | Some(value: T)

  /** What falls: a hazard that ends the game, or a cat that grants a boost. */
  datatype Kind = Lava | Cat

  /** A falling entity: its kind and its position (its z is always 0). */
  datatype Drop = Drop(kind: Kind, x: real, y: real)

  function Abs(v: real): real
  {
    if v < 0.0 then -v else v
  }

  function Max(a: real, b: real): (r: real)
    ensures r >= a && r >= b
    ensures r == a || r == b
  {
    if a >= b then a else b
  }

  function Min(a: real, b: real): (r: real)
    ensures r <= a && r <= b
    ensures r == a || r == b
  {
    if a <= b then a else b
  }

  /** The collision test: strictly closer than the half-extents on both axes. */
  function Collides(d: Drop, px: real, py: real): (hit: bool)
    ensures hit <==> px - HitHalfWidth < d.x < px + HitHalfWidth
                     && py - HitHalfHeight < d.y < py + HitHalfHeight
  {
    Abs(d.x - px) < HitHalfWidth && Abs(d.y - py) < HitHalfHeight
  }

  /** An entity exactly at the player's position always collides. */
  lemma CollidesAtPlayer(k: Kind, px: real, py: real)
    ensures Collides(Drop(k, px, py), px, py)
  {
  }

  /** The test is strict: at a distance of a half-extent or more there is no collision. */
  lemma NoCollisionAtOrBeyondExtent(d: Drop, px: real, py: real)
    requires Abs(d.x - px) >= HitHalfWidth || Abs(d.y - py) >= HitHalfHeight
    ensures !Collides(d, px, py)
  {
  }

  /** Player x clamped to the playfield. */
  function ClampX(x: real): (r: real)
    ensures WorldMinX <= r <= WorldMaxX
    ensures WorldMinX <= x <= WorldMaxX ==> r == x
    ensures x < WorldMinX ==> r == WorldMinX
    ensures x > WorldMaxX ==> r == WorldMaxX
  {
    Max(WorldMinX, Min(WorldMaxX, x))
  }
}
