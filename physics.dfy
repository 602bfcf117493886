/**
 The player's movement in one frame.  Every per-frame change is scaled by the frame scale
 (elapsed seconds times 60), so a frame of scale 2 moves as far horizontally as two frames
 of scale 1.
 */
module Physics {
  import opened World

  /** Horizontal movement: left and right each move by one step, so both together cancel. */
  function MoveX(x: real, left: bool, right: bool, speedMultiplier: real, frameScale: real): (r: real)
    ensures r - x == ((if right then 1.0 else 0.0) - (if left then 1.0 else 0.0))
                     * MoveSpeed * speedMultiplier * frameScale
  {
    var step := MoveSpeed * speedMultiplier * frameScale;
    (if left then x - step else x) + (if right then step else 0.0)
  }

  /** Horizontal movement is exactly frame-rate independent. */
  lemma MoveXSplit(x: real, left: bool, right: bool, m: real, f1: real, f2: real)
    ensures MoveX(MoveX(x, left, right, m, f1), left, right, m, f2)
         == MoveX(x, left, right, m, f1 + f2)
  {
  }

  /** Holding one direction moves that way by speed times multiplier times frame scale. */
  lemma MoveXDirection(x: real, left: bool, right: bool, m: real, f: real)
    requires m > 0.0 && f > 0.0
    ensures left && !right ==> MoveX(x, left, right, m, f) < x
    ensures right && !left ==> MoveX(x, left, right, m, f) > x
    ensures left == right ==> MoveX(x, left, right, m, f) == x
  {
  }

  /** The player's vertical state: height, vertical velocity and the grounded flag. */
  datatype Vertical = Vertical(y: real, vy: real, onGround: bool)

  /** Grounded means standing still on the ground. */
  predicate GroundedAtRest(v: Vertical)
  {
    v.onGround ==> v.y == GroundY && v.vy == 0.0
  }

  /**
   One frame of vertical motion: a held jump key starts a jump only from the ground,
   gravity lowers the velocity, the velocity moves the player, and a player at or below
   the ground is put back on it at rest.
   */
  function VerticalStep(v: Vertical, jumpHeld: bool, frameScale: real): (r: Vertical)
    requires frameScale >= 0.0
    ensures r.y >= GroundY
    ensures !r.onGround ==> r.y > GroundY
    ensures r.y == GroundY <==> r == Vertical(GroundY, 0.0, true)
    ensures GroundedAtRest(v) ==> GroundedAtRest(r)
    ensures !v.onGround ==> r.onGround || r.vy <= v.vy
  {
    var jumps := jumpHeld && v.onGround;
    var vy0 := if jumps then JumpForce else v.vy;
    var grounded0 := if jumps then false else v.onGround;
    var vy1 := vy0 - (Gravity / 9.0) * frameScale;
    var y1 := v.y + vy1 * frameScale;
    if y1 <= GroundY then Vertical(GroundY, 0.0, true)
    else Vertical(y1, vy1, grounded0)
  }

  /** One frame of vertical motion, step by step: the jump, then gravity, then the clamp. */
  method Integrate(v: Vertical, jumpHeld: bool, frameScale: real) returns (r: Vertical)
    requires frameScale >= 0.0
    ensures r == VerticalStep(v, jumpHeld, frameScale)
  {
    var y, vy, grounded := v.y, v.vy, v.onGround;
    if jumpHeld && grounded {
      vy := JumpForce;
      grounded := false;
    }
    vy := vy - (Gravity / 9.0) * frameScale;
    y := y + vy * frameScale;
    if y <= GroundY {
      y := GroundY;
      vy := 0.0;
      grounded := true;
    }
    r := Vertical(y, vy, grounded);
  }

  /** Without a jump a grounded player stays where it is. */
  lemma StaysOnGround(jumpHeld: bool, frameScale: real)
    requires frameScale >= 0.0 && !jumpHeld
    ensures VerticalStep(Vertical(GroundY, 0.0, true), jumpHeld, frameScale)
         == Vertical(GroundY, 0.0, true)
  {
  }

  /**
   A held jump key lifts a grounded player off the ground with the jump velocity minus one
   frame of gravity, as long as the frame is not so long that the arc ends within it.
   */
  lemma JumpTakesOff(frameScale: real)
    requires 0.0 < frameScale <= 16.0
    ensures var r := VerticalStep(Vertical(GroundY, 0.0, true), true, frameScale);
            !r.onGround && r.vy == JumpForce - (Gravity / 9.0) * frameScale && r.y > GroundY
  {
    var vy1 := JumpForce - (Gravity / 9.0) * frameScale;
    assert vy1 > 0.0;
    assert vy1 * frameScale > 0.0;
    assert GroundY + vy1 * frameScale > GroundY;
  }

  /** A player in the air cannot jump: the key only matters on the ground. */
  lemma NoJumpInAir(v: Vertical, frameScale: real)
    requires frameScale >= 0.0 && !v.onGround
    ensures VerticalStep(v, true, frameScale) == VerticalStep(v, false, frameScale)
  {
  }

  /**
   Unlike horizontal movement, the vertical integration is not frame-rate independent:
   one frame of scale 2 lands a jump at a different height than two frames of scale 1.
   */
  lemma VerticalNotSplitInvariant()
    ensures var one := VerticalStep(Vertical(GroundY, 0.0, true), true, 2.0);
            var two := VerticalStep(VerticalStep(Vertical(GroundY, 0.0, true), true, 1.0), true, 1.0);
            one.y != two.y
  {
  }
}
