/**
 The spawn scheduler: when a new entity is due, what it is, and how the delay between
 spawns decays towards its floor.
 */
module Spawning {
  import opened World

  /** A spawn is due once at least `delay` ms have passed since the last one. */
  predicate SpawnDue(time: real, lastSpawnTime: real, delay: real)
    ensures SpawnDue(time, lastSpawnTime, delay) <==> lastSpawnTime + delay <= time
  {
    time - lastSpawnTime >= delay
  }

  /** The delay after one more spawn: a 1.5% decay, never below the floor. */
  function NextDelay(delay: real): (r: real)
    ensures r >= MinSpawnDelay
    ensures r == MinSpawnDelay || r == delay * SpawnDecay
    ensures delay >= MinSpawnDelay ==> r <= delay
    ensures delay > MinSpawnDelay ==> r < delay
    ensures delay * SpawnDecay >= MinSpawnDelay ==> r == delay * SpawnDecay
    ensures delay * SpawnDecay < MinSpawnDelay ==> r == MinSpawnDelay
  {
    Max(MinSpawnDelay, delay * SpawnDecay)
  }

  /** The delay after `n` spawns of a session that started at the initial delay. */
  function DelayAfterSpawns(n: nat): (r: real)
    ensures r >= MinSpawnDelay
    ensures n > 0 ==> r < InitialSpawnDelay
  {
    if n == 0 then InitialSpawnDelay else NextDelay(DelayAfterSpawns(n - 1))
  }

  lemma {:induction false} DelayAfterSpawnsBounds(n: nat)
    ensures MinSpawnDelay <= DelayAfterSpawns(n) <= InitialSpawnDelay
  {
    if n > 0 {
      DelayAfterSpawnsBounds(n - 1);
    }
  }

  /** A sequence of spawns never increases the delay. */
  lemma {:induction false} DelayNonIncreasing(m: nat, n: nat)
    requires m <= n
    ensures DelayAfterSpawns(n) <= DelayAfterSpawns(m)
  {
    if m < n {
      DelayNonIncreasing(m, n - 1);
      DelayAfterSpawnsBounds(n - 1);
    }
  }

  /** Once the floor is reached the delay stays there. */
  lemma {:induction false} DelayStaysAtFloor(m: nat, n: nat)
    requires m <= n && DelayAfterSpawns(m) == MinSpawnDelay
    ensures DelayAfterSpawns(n) == MinSpawnDelay
  {
    if m < n {
      DelayStaysAtFloor(m, n - 1);
    }
  }

  /** The x position of a new entity from a uniform draw in [0, 1). */
  function SpawnX(rx: real): (x: real)
    requires 0.0 <= rx < 1.0
    ensures WorldMinX <= x < WorldMaxX
  {
    WorldMinX + rx * (WorldMaxX - WorldMinX)
  }

  /** The kind of a new entity from a uniform draw in [0, 1). */
  function SpawnKind(rk: real): (k: Kind)
    ensures k == Cat <==> rk < CatChance
    ensures k == Lava <==> rk >= CatChance
  {
    if rk < CatChance then Cat else Lava
  }

  /** A new entity: random kind and x, at the spawn height. */
  function NewDrop(rx: real, rk: real): (d: Drop)
    requires 0.0 <= rx < 1.0
    ensures d.y == SpawnHeight && WorldMinX <= d.x < WorldMaxX
    ensures d.kind == Cat <==> rk < CatChance
  {
    Drop(SpawnKind(rk), SpawnX(rx), SpawnHeight)
  }
}
