/** Player physics of the runner: a single body under constant gravity,
    with a one-shot jump impulse and a clamp onto the ground.  Distances are
    pixels, velocities pixels per tick; `real` keeps 0.6 and -12 exact. */
module Physics {

  /** Velocity added to the player every tick (the game's `gravity`). */
  const GRAVITY: real := 0.6
  /** Vertical velocity a jump sets; negative is upwards (the game's `jumpPower`). */
  const JUMP_POWER: real := -12.0

  /** The part of the player that physics changes. */
  datatype Body = Body(y: real, velocityY: real, isJumping: bool)

  /** One tick of `updatePlayer`'s physics: gravity, then the ground clamp.
      `floor` is the resting height `groundY - height`. */
  function Fall(b: Body, floor: real): (r: Body)
    // the player never ends a tick below the ground
    ensures r.y <= floor
    // it ends on the ground exactly when the free step would reach it
    ensures r.y == floor <==> b.y + b.velocityY + GRAVITY >= floor
    // landing stops the body and ends the jump
    ensures r.y == floor ==> r.velocityY == 0.0 && !r.isJumping
    // otherwise it is in free flight: velocity grows by gravity, y by the new velocity
    ensures r.y < floor ==>
              r.velocityY == b.velocityY + GRAVITY && r.y == b.y + r.velocityY
              && r.isJumping == b.isJumping
  {
    var v := b.velocityY + GRAVITY;
    var y := b.y + v;
    if y >= floor then Body(floor, 0.0, false) else Body(y, v, b.isJumping)
  }

  /** `jump`: the impulse is applied only to a body that is not already jumping. */
  function Jumped(b: Body): (r: Body)
    ensures r.y == b.y && r.isJumping
    ensures b.isJumping ==> r == b
    ensures !b.isJumping ==> r.velocityY == JUMP_POWER
  {
    if !b.isJumping then b.(velocityY := JUMP_POWER, isJumping := true) else b
  }

  /** Requesting a jump twice in one tick is the same as requesting it once:
      the `isJumping` guard is the only protection against double jumps. */
  lemma JumpIsIdempotent(b: Body)
    ensures Jumped(Jumped(b)) == Jumped(b)
  {
  }

  /** A body resting on the ground stays exactly there. */
  lemma RestingStaysOnGround(floor: real, isJumping: bool)
    ensures Fall(Body(floor, 0.0, isJumping), floor) == Body(floor, 0.0, false)
  {
  }

  /** The body after `n` ticks of physics with no jump requests. */
  function Steps(b: Body, floor: real, n: nat): Body
    decreases n
  {
    if n == 0 then b else Fall(Steps(b, floor, n - 1), floor)
  }

  /** The triangular number 1 + 2 + ... + n. */
  function Tri(n: nat): nat
  {
    if n == 0 then 0 else Tri(n - 1) + n
  }

  lemma {:induction false} TriClosedForm(n: nat)
    ensures 2 * Tri(n) == n * (n + 1)
  {
    if n > 0 {
      TriClosedForm(n - 1);
    }
  }

  /** Height after `k` ticks of free flight from `b`: y0 + k*v0 + gravity*(1 + ... + k). */
  function FlightY(b: Body, k: nat): real
  {
    b.y + k as real * b.velocityY + GRAVITY * Tri(k) as real
  }

  /** Velocity after `k` ticks of free flight from `b`: v0 + k*gravity. */
  function FlightVelocity(b: Body, k: nat): real
  {
    b.velocityY + k as real * GRAVITY
  }

  /** Gravity integration: as long as the ground is not reached, `n` ticks
      leave velocity `v0 + n*gravity` and the matching height, and the
      jumping flag untouched. */
  lemma {:induction false} FreeFlight(b: Body, floor: real, n: nat)
    requires forall k :: 1 <= k <= n ==> FlightY(b, k) < floor
    ensures Steps(b, floor, n) == Body(FlightY(b, n), FlightVelocity(b, n), b.isJumping)
  {
    if n > 0 {
      FreeFlight(b, floor, n - 1);
      assert n as real * b.velocityY == (n - 1) as real * b.velocityY + b.velocityY;
      assert FlightY(b, n) == FlightY(b, n - 1) + FlightVelocity(b, n);
    }
  }

  /** During the first 38 ticks of a jump from the ground the body is above it. */
  lemma JumpStaysAirborne(floor: real, k: nat)
    requires 1 <= k < 39
    ensures FlightY(Body(floor, JUMP_POWER, true), k) < floor
  {
    TriClosedForm(k);
    assert k * (k + 1) < k * 40;
  }

  /** A jump from rest on the ground is airborne for 38 ticks and lands
      exactly on the ground, at rest, on the 39th. */
  lemma JumpAirtime(floor: real)
    ensures forall n :: 1 <= n < 39 ==>
              Steps(Jumped(Body(floor, 0.0, false)), floor, n).isJumping
              && Steps(Jumped(Body(floor, 0.0, false)), floor, n).y < floor
    ensures Steps(Jumped(Body(floor, 0.0, false)), floor, 39) == Body(floor, 0.0, false)
  {
    var j := Jumped(Body(floor, 0.0, false));
    forall k | 1 <= k <= 38
      ensures FlightY(j, k) < floor
    {
      JumpStaysAirborne(floor, k);
    }
    forall n | 1 <= n < 39
      ensures Steps(j, floor, n).isJumping && Steps(j, floor, n).y < floor
    {
      FreeFlight(j, floor, n);
    }
    FreeFlight(j, floor, 38);
    TriClosedForm(38);
  }

  /** Free-flight height of a jump from the ground never rises more than
      114 pixels above it: (k - 19) * (k - 20) >= 0 for every whole k. */
  lemma JumpFlightAboveApex(floor: real, k: nat)
    ensures FlightY(Body(floor, JUMP_POWER, true), k) >= floor - 114.0
  {
    TriClosedForm(k);
    assert (k - 19) * (k - 20) >= 0;
    assert Tri(k) >= 20 * k - 190;
  }

  /** The highest point of a jump is 114 pixels above the ground, reached at
      ticks 19 and 20 (the two roots of (k - 19) * (k - 20)). */
  lemma JumpApex(floor: real)
    ensures forall n :: n <= 39 ==> Steps(Jumped(Body(floor, 0.0, false)), floor, n).y >= floor - 114.0
    ensures Steps(Jumped(Body(floor, 0.0, false)), floor, 19).y == floor - 114.0
    ensures Steps(Jumped(Body(floor, 0.0, false)), floor, 20).y == floor - 114.0
  {
    var j := Jumped(Body(floor, 0.0, false));
    JumpAirtime(floor);
    forall k | 1 <= k <= 38
      ensures FlightY(j, k) < floor
    {
      JumpStaysAirborne(floor, k);
    }
    forall n | 1 <= n < 39
      ensures Steps(j, floor, n).y >= floor - 114.0
    {
      FreeFlight(j, floor, n);
      JumpFlightAboveApex(floor, n);
    }
    FreeFlight(j, floor, 19);
    TriClosedForm(19);
    FreeFlight(j, floor, 20);
    TriClosedForm(20);
  }
}
