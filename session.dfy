/**
 The game session: the module-level state that the page's handlers and the per-frame loop
 update in place, as one object.  Rendering, audio, dialogs and storage are not part of it;
 a frame's timestamp, the wall clock, the frame scale, the held keys and the random draws
 are parameters.
 */
module Session {
  import opened World
  import opened Spawning
  import opened Boosts
  import opened Physics
  import opened RainSweep
  import opened Timekeeping

  /** `n` boosts that all expire at `expiry`: what collecting `n` cats in one frame pushes. */
  function Repeat(expiry: real, n: nat): (r: seq<real>)
    ensures |r| == n && forall k :: 0 <= k < n ==> r[k] == expiry
  {
    seq(n, _ => expiry)
  }

  class Game {
    var playing: bool
    var paused: bool
    var pauseStartTime: real
    var gameStartTime: real
    var lastSpawnTime: real
    /** The paused state remembered by a window blur, for the next focus. */
    var wasPaused: bool

    var spawnDelay: real
    /** How many spawns this session has seen; it determines the spawn delay. */
    ghost var spawnCount: nat
    /** The falling entities, oldest first. */
    var rain: seq<Drop>

    /** Expiry timestamps (wall clock, ms) of the cat boosts collected so far. */
    var catBoosts: seq<real>
    var speedMultiplier: real
    var catsCollected: nat

    var playerX: real
    var playerY: real
    var velocityY: real
    var onGround: bool

    var bestTime: real

    /** The timestamps pausing and resuming work on. */
    function Timers(): Clock
      reads this`paused, this`pauseStartTime, this`gameStartTime, this`lastSpawnTime
    {
      Clock(paused, pauseStartTime, gameStartTime, lastSpawnTime)
    }

    function Motion(): Vertical
      reads this`playerY, this`velocityY, this`onGround
    {
      Vertical(playerY, velocityY, onGround)
    }

    /**
     What holds at every step of a frame: the spawn delay is the decayed delay of the
     spawns so far, the player is on or above the ground and at rest when grounded, and
     only a running game can be paused.
     */
    ghost predicate Settled()
      reads this`spawnDelay, this`spawnCount, this`playerY, this`velocityY, this`onGround,
            this`paused, this`playing
    {
      && spawnDelay == DelayAfterSpawns(spawnCount)
      && MinSpawnDelay <= spawnDelay <= InitialSpawnDelay
      && playerY >= GroundY
      && GroundedAtRest(Motion())
      && (paused ==> playing)
    }

    /** Every entity is within the playfield's column, at or below the spawn height. */
    ghost predicate RainInColumn()
      reads this`rain
    {
      forall k :: 0 <= k < |rain| ==> InColumn(rain[k])
    }

    /** Between frames the player is also within the horizontal bounds. */
    ghost predicate Valid()
      reads this
    {
      Settled() && RainInColumn() && WorldMinX <= playerX <= WorldMaxX
    }

    /** The state when the page loads, with the best time read from storage. */
    constructor (storedBestTime: real)
      ensures Valid()
      ensures !playing && !paused && rain == [] && catBoosts == [] && catsCollected == 0
      ensures spawnDelay == InitialSpawnDelay && lastSpawnTime == 0.0 && gameStartTime == 0.0
      ensures playerX == 0.0 && playerY == GroundY && velocityY == 0.0 && !onGround
      ensures bestTime == storedBestTime
      ensures !wasPaused && pauseStartTime == 0.0 && speedMultiplier == 1.0
    {
      playing, paused := false, false;
      pauseStartTime, gameStartTime, lastSpawnTime := 0.0, 0.0, 0.0;
      wasPaused := false;
      spawnDelay, spawnCount := InitialSpawnDelay, 0;
      rain := [];
      catBoosts, speedMultiplier, catsCollected := [], 1.0, 0;
      playerX, playerY, velocityY, onGround := 0.0, GroundY, 0.0, false;
      bestTime := storedBestTime;
    }

    /** Pausing records when the pause began; resuming shifts the stored timestamps. */
    method SetPaused(value: bool, now: real)
      modifies this`paused, this`pauseStartTime, this`gameStartTime, this`lastSpawnTime
      ensures Timers() == Timekeeping.SetPaused(old(Timers()), value, now)
    {
      if paused == value {
        return;
      }
      paused := value;
      if paused {
        pauseStartTime := now;
      } else {
        var pausedDuration := now - pauseStartTime;
        lastSpawnTime := lastSpawnTime + pausedDuration;
        gameStartTime := gameStartTime + pausedDuration;
      }
    }

    /**
     The end of a session: the game stops, any pause is lifted, and the time survived
     becomes the best time when it beats it.
     */
    method GameOver(now: real) returns (newRecord: bool, survived: real)
      requires Settled()
      modifies this`playing, this`paused, this`pauseStartTime, this`gameStartTime,
               this`lastSpawnTime, this`bestTime
      ensures Settled() && !playing && !paused
      ensures Timers() == Timekeeping.SetPaused(old(Timers()), false, now)
      ensures survived == SurvivedSeconds(Timers(), now)
      ensures newRecord <==> survived > old(bestTime)
      ensures bestTime >= old(bestTime) && bestTime >= survived
      ensures bestTime == old(bestTime) || bestTime == survived
    {
      playing := false;
      SetPaused(false, now);
      survived := (now - gameStartTime) / 1000.0;
      newRecord := survived > bestTime;
      if newRecord {
        bestTime := survived;
      }
    }

    /** Clears the entities and boosts and puts the player and the spawn delay back. */
    method ResetGame()
      modifies this`rain, this`playerX, this`playerY, this`velocityY, this`spawnDelay,
               this`spawnCount, this`catBoosts, this`speedMultiplier, this`catsCollected
      ensures (paused ==> playing) ==> Valid()
      ensures rain == [] && catBoosts == [] && catsCollected == 0 && speedMultiplier == 1.0
      ensures playerX == 0.0 && playerY == GroundY && velocityY == 0.0
      ensures spawnDelay == InitialSpawnDelay
    {
      rain := [];
      playerX, playerY := 0.0, GroundY;
      velocityY := 0.0;
      spawnDelay, spawnCount := InitialSpawnDelay, 0;
      catBoosts := [];
      speedMultiplier := 1.0;
      catsCollected := 0;
    }

    /** Starts a fresh session at time `now`, from whatever state the last one left. */
    method StartGame(now: real)
      modifies this`playing, this`paused, this`pauseStartTime, this`gameStartTime,
               this`lastSpawnTime, this`rain, this`playerX, this`playerY, this`velocityY,
               this`spawnDelay, this`spawnCount, this`catBoosts, this`speedMultiplier,
               this`catsCollected
      ensures Valid() && playing && !paused
      ensures rain == [] && catBoosts == [] && catsCollected == 0 && speedMultiplier == 1.0
      ensures spawnDelay == InitialSpawnDelay
      ensures playerX == 0.0 && playerY == GroundY && velocityY == 0.0
      ensures lastSpawnTime == now && gameStartTime == now
      ensures pauseStartTime == old(pauseStartTime)
    {
      playing := true;
      SetPaused(false, now);
      ResetGame();
      lastSpawnTime := now;
      gameStartTime := now;
    }

    /** Losing the window's focus pauses a running game, remembering whether it was paused. */
    method Blur(now: real)
      requires Valid()
      modifies this`wasPaused, this`paused, this`pauseStartTime, this`gameStartTime,
               this`lastSpawnTime
      ensures Valid()
      ensures old(playing) ==> wasPaused == old(paused)
                               && Timers() == Timekeeping.SetPaused(old(Timers()), true, now)
      ensures !old(playing) ==> wasPaused == old(wasPaused) && Timers() == old(Timers())
    {
      if playing {
        wasPaused := paused;
        SetPaused(true, now);
      }
    }

    /** Regaining the focus restores the remembered paused state of a running game. */
    method Focus(now: real)
      requires Valid()
      modifies this`paused, this`pauseStartTime, this`gameStartTime, this`lastSpawnTime
      ensures Valid()
      ensures old(playing) ==> Timers() == Timekeeping.SetPaused(old(Timers()), wasPaused, now)
      ensures !old(playing) ==> Timers() == old(Timers())
    {
      if playing {
        SetPaused(wasPaused, now);
      }
    }

    /** The pause button toggles the paused state of a running game. */
    method PauseButton(now: real)
      requires Valid()
      modifies this`paused, this`pauseStartTime, this`gameStartTime, this`lastSpawnTime
      ensures Valid()
      ensures old(playing) ==> Timers() == Timekeeping.SetPaused(old(Timers()), !old(paused), now)
      ensures !old(playing) ==> Timers() == old(Timers())
    {
      if !playing {
        return;
      }
      SetPaused(!paused, now);
    }

    /** Adds one entity at the spawn height and decays the spawn delay. */
    method SpawnRain(rx: real, rk: real)
      requires Settled() && RainInColumn() && 0.0 <= rx < 1.0
      modifies this`rain, this`spawnDelay, this`spawnCount
      ensures Settled() && RainInColumn()
      ensures rain == old(rain) + [NewDrop(rx, rk)]
      ensures spawnDelay == NextDelay(old(spawnDelay))
    {
      var x := WorldMinX + rx * (WorldMaxX - WorldMinX);
      if rk < CatChance {
        rain := rain + [Drop(Cat, x, SpawnHeight)];
      } else {
        rain := rain + [Drop(Lava, x, SpawnHeight)];
      }
      spawnDelay := Max(MinSpawnDelay, spawnDelay * SpawnDecay);
      spawnCount := spawnCount + 1;
      DelayAfterSpawnsBounds(spawnCount);
    }

    /** Drops expired boosts and recomputes the speed multiplier from those left. */
    method UpdateBoosts(time: real)
      modifies this`catBoosts, this`speedMultiplier
      ensures catBoosts == Unexpired(old(catBoosts), time)
      ensures forall k :: 0 <= k < |catBoosts| ==> catBoosts[k] > time
      ensures speedMultiplier == 1.0 + |catBoosts| as real * CatBoostAmount
    {
      catBoosts := Unexpired(catBoosts, time);
      speedMultiplier := SpeedMultiplier(|catBoosts|);
    }

    /** Horizontal movement from the held keys. */
    method MoveHorizontal(left: bool, right: bool, frameScale: real)
      modifies this`playerX
      ensures playerX == MoveX(old(playerX), left, right, speedMultiplier, frameScale)
    {
      if left {
        playerX := playerX - MoveSpeed * speedMultiplier * frameScale;
      }
      if right {
        playerX := playerX + MoveSpeed * speedMultiplier * frameScale;
      }
    }

    /** A jump from the ground, then gravity, then the ground clamp. */
    method MoveVertical(jump: bool, frameScale: real)
      requires Settled() && frameScale >= 0.0
      modifies this`playerY, this`velocityY, this`onGround
      ensures Settled()
      ensures Motion() == VerticalStep(old(Motion()), jump, frameScale)
    {
      var r := Integrate(Motion(), jump, frameScale);
      playerY, velocityY, onGround := r.y, r.vy, r.onGround;
    }

    /** Spawns once the spawn delay has passed since the last spawn. */
    method SpawnStep(time: real, rx: real, rk: real)
      requires Settled() && RainInColumn() && 0.0 <= rx < 1.0
      modifies this`rain, this`spawnDelay, this`spawnCount, this`lastSpawnTime
      ensures Settled() && RainInColumn()
      ensures SpawnDue(time, old(lastSpawnTime), old(spawnDelay)) ==>
                rain == old(rain) + [NewDrop(rx, rk)]
                && spawnDelay == NextDelay(old(spawnDelay)) && lastSpawnTime == time
      ensures !SpawnDue(time, old(lastSpawnTime), old(spawnDelay)) ==>
                rain == old(rain) && spawnDelay == old(spawnDelay)
                && lastSpawnTime == old(lastSpawnTime)
    {
      if time - lastSpawnTime >= spawnDelay {
        SpawnRain(rx, rk);
        lastSpawnTime := time;
      }
    }

    /**
     One entity of the sweep: it falls, and then a lava hit stops the sweep, a touched cat
     is collected and removed, and an entity below the despawn height is removed.  The
     result says whether the sweep stops here; the caller then ends the game.
     */
    method SweepEntity(i: nat, now: real, fall: real) returns (stop: bool)
      requires i < |rain|
      modifies this`rain, this`catsCollected, this`catBoosts
      ensures var fate := FateOf(old(rain)[i], playerX, playerY, fall);
              && (stop <==> fate == Hit)
              && (stop ==>
                    && rain == old(rain)[i := Fall(old(rain)[i], fall)]
                    && catsCollected == old(catsCollected) && catBoosts == old(catBoosts))
              && (!stop ==>
                    && rain == old(rain)[..i]
                               + (if fate == Stay then [Fall(old(rain)[i], fall)] else [])
                               + old(rain)[i + 1..]
                    && catsCollected == old(catsCollected) + (if fate == Collect then 1 else 0)
                    && catBoosts == old(catBoosts) + (if fate == Collect then [now + CatBoostDuration] else []))
    {
      ghost var s := rain;
      var r := rain[i];
      r := r.(y := r.y - fall);
      rain := rain[i := r];
      assert rain[..i] == s[..i] && rain[i + 1..] == s[i + 1..];
      if r.kind == Lava {
        if Collides(r, playerX, playerY) {
          return true;
        }
      }
      if r.kind == Cat {
        if Collides(r, playerX, playerY) {
          catsCollected := catsCollected + 1;
          catBoosts := catBoosts + [now + CatBoostDuration];
          rain := rain[..i] + rain[i + 1..];
          return false;
        }
      }
      if r.y < DespawnY {
        rain := rain[..i] + rain[i + 1..];
      } else {
        assert rain == s[..i] + [r] + s[i + 1..];
      }
      return false;
    }

    /**
     The sweep over the entities, last spawned first.  Without a lava hit every entity has
     fallen and the survivors stay in order; on the last-spawned lava hit the game ends and
     every older entity is left where it was.
     */
    method SweepRain(now: real, frameScale: real)
      requires Settled() && RainInColumn() && playing && !paused && frameScale >= 0.0
      modifies this`rain, this`catsCollected, this`catBoosts, this`playing, this`paused,
               this`pauseStartTime, this`gameStartTime, this`lastSpawnTime, this`bestTime
      ensures Settled() && RainInColumn() && Timers() == old(Timers())
      ensures var swept := Sweep(old(rain), Fates(playerX, playerY, Gravity * frameScale), Gravity * frameScale);
              && rain == swept.rain
              && catsCollected == old(catsCollected) + swept.cats
              && catBoosts == old(catBoosts) + Repeat(now + CatBoostDuration, swept.cats)
              && playing == !swept.hit
              && bestTime == if swept.hit then Max(old(bestTime), SurvivedSeconds(old(Timers()), now))
                             else old(bestTime)
    {
      var hit := SweepEntities(now, Gravity * frameScale);
      if hit {
        LavaHit(now);
      }
    }

    /**
     The loop of the sweep, which visits the entities from the last spawned to the first
     and stops at a lava hit.  The game over that the source calls just before leaving
     the loop is made by `SweepRain` as soon as this returns, as nothing happens between
     the two.
     */
    method SweepEntities(now: real, fall: real) returns (hit: bool)
      requires RainInColumn() && fall >= 0.0
      modifies this`rain, this`catsCollected, this`catBoosts
      ensures RainInColumn()
      ensures var swept := Sweep(old(rain), Fates(playerX, playerY, fall), fall);
              && rain == swept.rain
              && catsCollected == old(catsCollected) + swept.cats
              && catBoosts == old(catBoosts) + Repeat(now + CatBoostDuration, swept.cats)
              && hit == swept.hit
    {
      ghost var s := rain;
      ghost var fate := Fates(playerX, playerY, fall);
      hit := false;
      assert s[..|s|] == s && s[|s|..] == [];
      for i := |rain| downto 0
        invariant rain == s[..i] + Survivors(s[i..], fate, fall)
        invariant forall k :: i <= k < |s| ==> fate(s[k]) != Hit
        invariant catsCollected == old(catsCollected) + Collected(s[i..], fate)
        invariant catBoosts == old(catBoosts) + Repeat(now + CatBoostDuration, Collected(s[i..], fate))
        invariant !hit && fate == Fates(playerX, playerY, fall)
      {
        ghost var rest := Survivors(s[i + 1..], fate, fall);
        ghost var cats := Collected(s[i + 1..], fate);
        SurvivorStep(s, i, fate, fall);
        assert rain[i] == s[i];
        var stop := SweepEntity(i, now, fall);
        if stop {
          SweepWithHit(s, i, fate, fall);
          Replaced(s, i, rest, Fall(s[i], fall));
          SweptInColumn(s, i, fate, fall);
          hit := true;
          break;
        }
        ghost var keep := if fate(s[i]) == Stay then [Fall(s[i], fall)] else [];
        Spliced(s, i, rest, keep);
        assert rain == s[..i] + (keep + rest);
        if fate(s[i]) == Collect {
          RepeatPush(now + CatBoostDuration, cats);
          AppendAssoc(old(catBoosts), Repeat(now + CatBoostDuration, cats), [now + CatBoostDuration]);
        }
      }
      if !hit {
        assert s[0..] == s;
        SurvivorsInColumn(s, fate, fall);
        SweepWithoutHit(s, fate, fall);
      }
    }

    /** A lava hit during a frame: the game is over, with the clock untouched. */
    method LavaHit(now: real)
      requires Settled() && playing && !paused
      modifies this`playing, this`paused, this`pauseStartTime, this`gameStartTime,
               this`lastSpawnTime, this`bestTime
      ensures Settled() && !playing && Timers() == old(Timers())
      ensures bestTime == Max(old(bestTime), SurvivedSeconds(old(Timers()), now))
    {
      var _, _ := GameOver(now);
    }

    /** The player's x is put back within the playfield. */
    method ClampPlayer()
      requires Settled() && RainInColumn()
      modifies this`playerX
      ensures Valid()
      ensures playerX == ClampX(old(playerX))
    {
      playerX := Max(WorldMinX, Min(WorldMaxX, playerX));
    }

    /**
     One animation frame at timestamp `time` with wall clock `now`.  A running, unpaused
     game advances (see `Advance`); otherwise the frame changes nothing.
     */
    method Frame(time: real, now: real, frameScale: real, left: bool, right: bool, jump: bool,
                 rx: real, rk: real)
      requires Valid() && frameScale >= 0.0 && 0.0 <= rx < 1.0
      modifies this
      ensures Valid()
      ensures !old(playing) || old(paused) ==> unchanged(this)
    {
      if playing && !paused {
        Advance(time, now, frameScale, left, right, jump, rx, rk);
      }
    }

    /**
     The frame of a running, unpaused game: it updates the boosts, moves the player, spawns
     when due, sweeps the entities and clamps the player's x; collisions in the sweep see
     the x before the clamp.  The spawn delay never grows, and every boost left is either
     still active or was just granted.
     */
    method Advance(time: real, now: real, frameScale: real, left: bool, right: bool, jump: bool,
                   rx: real, rk: real)
      requires Valid() && playing && !paused && frameScale >= 0.0 && 0.0 <= rx < 1.0
      modifies this
      ensures Valid()
      ensures spawnDelay <= old(spawnDelay)
      ensures forall k :: 0 <= k < |catBoosts| ==>
                catBoosts[k] > time || catBoosts[k] == now + CatBoostDuration
    {
      BeforeSweep(time, frameScale, left, right, jump, rx, rk);
      ghost var active := catBoosts;
      ghost var cats := Sweep(rain, Fates(playerX, playerY, Gravity * frameScale), Gravity * frameScale).cats;
      SweepRain(now, frameScale);
      ActiveOrFresh(active, time, now + CatBoostDuration, cats);
      ClampPlayer();
    }

    /** The part of a frame before the sweep: boosts, movement and spawning. */
    method BeforeSweep(time: real, frameScale: real, left: bool, right: bool, jump: bool,
                       rx: real, rk: real)
      requires Valid() && playing && !paused && frameScale >= 0.0 && 0.0 <= rx < 1.0
      modifies this`catBoosts, this`speedMultiplier, this`playerX, this`playerY, this`velocityY,
               this`onGround, this`rain, this`spawnDelay, this`spawnCount, this`lastSpawnTime
      ensures Settled() && RainInColumn() && playing && !paused
      ensures catBoosts == Unexpired(old(catBoosts), time)
      ensures forall k :: 0 <= k < |catBoosts| ==> catBoosts[k] > time
      ensures speedMultiplier == SpeedMultiplier(|catBoosts|)
      ensures playerX == MoveX(old(playerX), left, right, speedMultiplier, frameScale)
      ensures Motion() == VerticalStep(old(Motion()), jump, frameScale)
      ensures SpawnDue(time, old(lastSpawnTime), old(spawnDelay)) ==>
                rain == old(rain) + [NewDrop(rx, rk)]
                && spawnDelay == NextDelay(old(spawnDelay)) && lastSpawnTime == time
      ensures !SpawnDue(time, old(lastSpawnTime), old(spawnDelay)) ==>
                rain == old(rain) && spawnDelay == old(spawnDelay)
                && lastSpawnTime == old(lastSpawnTime)
      ensures spawnDelay <= old(spawnDelay)
    {
      UpdateBoosts(time);
      MoveHorizontal(left, right, frameScale);
      MoveVertical(jump, frameScale);
      SpawnStep(time, rx, rk);
    }
  }

  /** Writing entity `i` back in place. */
  lemma Replaced(s: seq<Drop>, i: nat, rest: seq<Drop>, r: Drop)
    requires i < |s|
    ensures (s[..i + 1] + rest)[i := r] == s[..i] + [r] + rest
  {
  }

  /** Splicing entity `i` out, or keeping its fallen copy, in front of the swept ones. */
  lemma Spliced(s: seq<Drop>, i: nat, rest: seq<Drop>, keep: seq<Drop>)
    requires i < |s|
    ensures var t := s[..i + 1] + rest;
            t[..i] + keep + t[i + 1..] == s[..i] + (keep + rest)
  {
    var t := s[..i + 1] + rest;
    assert t[..i] == s[..i];
    assert t[i + 1..] == rest;
  }

  lemma RepeatPush(expiry: real, n: nat)
    ensures Repeat(expiry, n) + [expiry] == Repeat(expiry, n + 1)
  {
  }

  /** What a sweep that stops at a lava hit on entity `i` leaves is within the column. */
  lemma SweptInColumn(s: seq<Drop>, i: nat, fate: Drop -> Fate, fall: real)
    requires i < |s| && fall >= 0.0
    requires forall k :: 0 <= k < |s| ==> InColumn(s[k])
    ensures var t := s[..i] + [Fall(s[i], fall)] + Survivors(s[i + 1..], fate, fall);
            forall k :: 0 <= k < |t| ==> InColumn(t[k])
  {
    SurvivorsInColumn(s[i + 1..], fate, fall);
  }

  /** One step of the sweep's specification: entity `i` in front of those already swept. */
  lemma SurvivorStep(s: seq<Drop>, i: nat, fate: Drop -> Fate, fall: real)
    requires i < |s|
    ensures Survivors(s[i..], fate, fall)
         == (if fate(s[i]) == Stay then [Fall(s[i], fall)] else []) + Survivors(s[i + 1..], fate, fall)
    ensures Collected(s[i..], fate) == (if fate(s[i]) == Collect then 1 else 0) + Collected(s[i + 1..], fate)
  {
    assert s[i..][0] == s[i];
    assert s[i..][1..] == s[i + 1..];
  }

  /** Boosts that were active, followed by freshly granted ones, are active or fresh. */
  lemma ActiveOrFresh(active: seq<real>, time: real, expiry: real, n: nat)
    requires forall k :: 0 <= k < |active| ==> active[k] > time
    ensures var b := active + Repeat(expiry, n);
            forall k :: 0 <= k < |b| ==> b[k] > time || b[k] == expiry
  {
  }
}
