/**
 Pause-aware timekeeping.  Pausing records when the pause began; resuming shifts the session
 start and the last spawn time forward by the pause's length, so that survival time and the
 spawn timer leave out the time spent paused.  Cat boost expiries are not shifted.
 */
module Timekeeping {
  import opened World

  /** The timestamps that pausing and resuming touch (all in ms). */
  datatype Clock = Clock(paused: bool, pauseStartTime: real, gameStartTime: real, lastSpawnTime: real)

  /** Setting the paused flag at time `now`. */
  function SetPaused(c: Clock, value: bool, now: real): (r: Clock)
    ensures r.paused == value
    ensures c.paused == value ==> r == c
    ensures c.paused != value && value ==>
              r == c.(paused := true, pauseStartTime := now)
    ensures c.paused != value && !value ==>
              r.pauseStartTime == c.pauseStartTime
              && r.gameStartTime - c.gameStartTime == now - c.pauseStartTime
              && r.lastSpawnTime - c.lastSpawnTime == now - c.pauseStartTime
  {
    if c.paused == value then c
    else if value then c.(paused := true, pauseStartTime := now)
    else
      var pausedDuration := now - c.pauseStartTime;
      c.(paused := false,
         lastSpawnTime := c.lastSpawnTime + pausedDuration,
         gameStartTime := c.gameStartTime + pausedDuration)
  }

  /** Time survived so far, in seconds. */
  function SurvivedSeconds(c: Clock, now: real): (seconds: real)
    ensures seconds * 1000.0 == now - c.gameStartTime
    ensures seconds >= 0.0 <==> now >= c.gameStartTime
  {
    (now - c.gameStartTime) / 1000.0
  }

  /** How long ago the last spawn was, as the spawn timer measures it. */
  function SinceLastSpawn(c: Clock, now: real): (since: real)
    ensures c.lastSpawnTime + since == now
    ensures since >= 0.0 <==> now >= c.lastSpawnTime
  {
    now - c.lastSpawnTime
  }

  /**
   Pausing at P and resuming at R shifts both stored timestamps by exactly R - P, and leaves
   the survival time and the spawn timer at R where they were at P.
   */
  lemma PauseResume(c: Clock, p: real, r: real)
    requires !c.paused
    ensures var c2 := SetPaused(SetPaused(c, true, p), false, r);
            && !c2.paused
            && c2.gameStartTime == c.gameStartTime + (r - p)
            && c2.lastSpawnTime == c.lastSpawnTime + (r - p)
            && SurvivedSeconds(c2, r) == SurvivedSeconds(c, p)
            && SinceLastSpawn(c2, r) == SinceLastSpawn(c, p)
  {
  }

  /**
   After a pause of length D, every later reading of the survival time and of the spawn
   timer is the reading that D ms earlier would have given had the game never paused.
   */
  lemma PauseExcludedFromLaterReadings(c: Clock, p: real, r: real, t: real)
    requires !c.paused
    ensures var c2 := SetPaused(SetPaused(c, true, p), false, r);
            && SurvivedSeconds(c2, t) == SurvivedSeconds(c, t - (r - p))
            && SinceLastSpawn(c2, t) == SinceLastSpawn(c, t - (r - p))
  {
  }

  /**
   Window blur followed by focus: the blur pauses (remembering the earlier state) and the
   focus restores it.  A game that was already paused comes back exactly as it was; one
   that was running resumes with the pause's length left out.
   */
  lemma BlurThenFocus(c: Clock, p: real, r: real)
    ensures var c2 := SetPaused(SetPaused(c, true, p), c.paused, r);
            && c2.paused == c.paused
            && (c.paused ==> c2 == c)
            && (!c.paused ==> c2 == SetPaused(SetPaused(c, true, p), false, r))
  {
  }
}
