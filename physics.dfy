/**
  Vertical motion of the ball: one explicit Euler step per frame, with an
  exact clamp to the ground on contact. The same step drives both the
  in-game jump and the one-time fall into the scene.
 */
module Physics {

  /** Added to the vertical velocity on every frame. */
  const GRAVITY: real := 0.5
  /** Vertical velocity a jump starts with (negative is upwards). */
  const JUMP_VELOCITY: real := -15.0

  /** Vertical position (larger is lower), vertical velocity, and whether the
      ball is still in the air. */
  datatype Ball = Ball(y: real, vy: real, airborne: bool)

  /** One integration step: gravity into the velocity, the velocity into the
      position, and on reaching the ground a clamp to it with the velocity
      zeroed and the airborne flag cleared. */
  function Step(b: Ball, ground: real): (r: Ball)
    requires b.airborne
    ensures r.y <= ground
    ensures r.airborne <==> b.y + b.vy + GRAVITY < ground
    ensures r.airborne <==> r.y < ground
    ensures !r.airborne ==> r.y == ground && r.vy == 0.0
    ensures r.airborne ==> r.vy == b.vy + GRAVITY && r.y == b.y + b.vy + GRAVITY
  {
    var vy := b.vy + GRAVITY;
    var y := b.y + vy;
    if y >= ground then Ball(ground, 0.0, false) else Ball(y, vy, true)
  }

  /** The ball after `n` frames: a frame steps the ball only while it is
      airborne, as the game loop and the fall-in loop both do. */
  function Frames(b: Ball, n: nat, ground: real): (r: Ball)
    ensures !b.airborne ==> r == b
    ensures r.airborne ==> b.airborne
    ensures b.airborne && !r.airborne ==> r.y == ground && r.vy == 0.0
  {
    if n == 0 then b
    else
      var prev := Frames(b, n - 1, ground);
      if prev.airborne then Step(prev, ground) else prev
  }

  /** Every frame keeps the ball at or above the ground once it has been there. */
  lemma {:induction false} FramesStayAboveGround(b: Ball, n: nat, ground: real)
    requires b.y <= ground
    ensures Frames(b, n, ground).y <= ground
  {
    if n > 0 {
      FramesStayAboveGround(b, n - 1, ground);
    }
  }

  /** Closed form of the jump arc before landing: after n frames the ball is
      15n - n(n+1)/4 above the ground and moving at -15 + n/2. */
  lemma {:induction false} JumpArc(ground: real, n: nat)
    requires n <= 58
    ensures Frames(Ball(ground, JUMP_VELOCITY, true), n, ground)
            == Ball(ground - 15.0 * n as real + (n * (n + 1)) as real / 4.0,
                    -15.0 + n as real / 2.0, true)
  {
    if n > 0 {
      JumpArc(ground, n - 1);
      ArcStep(n);
    }
  }

  /** The arithmetic of one more frame of the jump arc: the drop term grows by
      n/2, and it stays below the 15n rise while n + 1 < 60. */
  lemma ArcStep(n: nat)
    requires 1 <= n <= 58
    ensures (n * (n + 1)) as real == ((n - 1) * n) as real + 2.0 * n as real
    ensures (n * (n + 1)) as real < 60.0 * n as real
  {
    assert n * (n + 1) == (n - 1) * n + 2 * n;
    assert n * (n + 1) < 60 * n by {
      assert n + 1 < 60;
    }
  }

  /** A jump from the ground with velocity -15 and gravity 0.5 stays in the
      air for frames 1 to 58 and lands exactly on the ground at frame 59. */
  lemma JumpLandsAfter59Frames(ground: real)
    ensures forall n: nat :: 1 <= n < 59 ==>
              Frames(Ball(ground, JUMP_VELOCITY, true), n, ground).airborne
    ensures Frames(Ball(ground, JUMP_VELOCITY, true), 59, ground) == Ball(ground, 0.0, false)
  {
    forall n: nat | 1 <= n < 59
      ensures Frames(Ball(ground, JUMP_VELOCITY, true), n, ground).airborne
    {
      JumpArc(ground, n);
    }
    JumpArc(ground, 58);
  }

  /** Closed form of a fall that starts at rest: while still airborne after
      n frames, the ball has dropped n(n+1)/4. */
  lemma {:induction false} FallArc(y0: real, ground: real, n: nat)
    requires Frames(Ball(y0, 0.0, true), n, ground).airborne
    ensures Frames(Ball(y0, 0.0, true), n, ground)
            == Ball(y0 + (n * (n + 1)) as real / 4.0, n as real / 2.0, true)
  {
    if n > 0 {
      var prev := Frames(Ball(y0, 0.0, true), n - 1, ground);
      assert prev.airborne;
      FallArc(y0, ground, n - 1);
      assert n * (n + 1) == (n - 1) * n + 2 * n;
    }
  }

  /** The fall into the scene ends: from rest at y0, the ball is on the ground
      after any n frames with n * n >= 4 * (ground - y0). */
  lemma {:induction false} FallInLands(y0: real, ground: real, n: nat)
    requires n >= 1 && (n * n) as real >= 4.0 * (ground - y0)
    ensures Frames(Ball(y0, 0.0, true), n, ground) == Ball(ground, 0.0, false)
  {
    var b := Frames(Ball(y0, 0.0, true), n, ground);
    var prev := Frames(Ball(y0, 0.0, true), n - 1, ground);
    if b.airborne {
      // Still in the air: the last frame was a step that stayed above the
      // ground, yet the closed form puts the ball at or below it.
      assert prev.airborne && b == Step(prev, ground);
      FallArc(y0, ground, n);
      assert false;
    }
    LandedStaysLanded(y0, ground, n);
  }

  /** Once landed, the ball is on the ground with zero velocity. */
  lemma {:induction false} LandedStaysLanded(y0: real, ground: real, n: nat)
    requires !Frames(Ball(y0, 0.0, true), n, ground).airborne
    ensures Frames(Ball(y0, 0.0, true), n, ground) == Ball(ground, 0.0, false)
  {
    if n > 0 {
      var prev := Frames(Ball(y0, 0.0, true), n - 1, ground);
      if !prev.airborne {
        LandedStaysLanded(y0, ground, n - 1);
      }
    }
  }
}
