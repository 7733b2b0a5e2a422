/** The obstacle spawner: the fixed three-variant geometry table, the
    shrinking spawn interval, the per-tick translation, the pruning of
    obstacles that have left the field, and the score and speed ramp
    that pruning drives. */
module Obstacles {

  /** Spawn interval of a fresh session, in ticks. */
  const BASE_INTERVAL: real := 80.0
  /** The interval is only shortened while it is above this value. */
  const MIN_INTERVAL: real := 40.0
  /** Amount the interval shrinks by at each spawn. */
  const INTERVAL_DECREMENT: real := 0.8
  /** Obstacle speed of a fresh session, in pixels per tick. */
  const BASE_SPEED: real := 6.0
  /** Speed added each time the score reaches a milestone. */
  const SPEED_INCREMENT: real := 0.8
  /** Score credited for each obstacle that leaves the field. */
  const SCORE_PER_OBSTACLE: int := 10
  /** The speed rises every time the score is a multiple of this. */
  const SPEED_MILESTONE: int := 100

  datatype ObstacleType = Spikes | Laser | Drone

  /** A live obstacle; the animation phases the game keeps beside these
      fields only affect drawing. */
  datatype Obstacle = Obstacle(x: real, y: real, width: real, height: real, kind: ObstacleType)

  function Width(kind: ObstacleType): real
  {
    match kind
    case Spikes => 30.0
    case Laser => 8.0
    case Drone => 40.0
  }

  function Height(kind: ObstacleType): real
  {
    match kind
    case Spikes => 60.0
    case Laser => 80.0
    case Drone => 25.0
  }

  /** How far above the ground line the top edge of a variant is placed. */
  function TopOffset(kind: ObstacleType): real
  {
    match kind
    case Spikes => 60.0
    case Laser => 80.0
    case Drone => 120.0
  }

  /** An obstacle whose vertical position and size are those of its variant. */
  predicate Catalogued(o: Obstacle, groundY: real)
  {
    o.y == groundY - TopOffset(o.kind) && o.width == Width(o.kind) && o.height == Height(o.kind)
  }

  /** The obstacle `updateObstacles` creates for the chosen variant: at the
      right edge of the field, spikes and laser standing on the ground, the
      drone hovering above it. */
  function NewObstacle(kind: ObstacleType, canvasWidth: real, groundY: real): (o: Obstacle)
    ensures o.kind == kind && o.x == canvasWidth && Catalogued(o, groundY)
    ensures kind != Drone ==> o.y + o.height == groundY
    ensures kind == Drone ==> o.y == groundY - 120.0 && o.y + o.height == groundY - 95.0
  {
    Obstacle(canvasWidth, groundY - TopOffset(kind), Width(kind), Height(kind), kind)
  }

  /** The least whole number at or above `x`. */
  function Ceil(x: real): (n: int)
    ensures x <= n as real < x + 1.0
  {
    -((-x).Floor)
  }

  /** The tick counter is incremented first, and a spawn fires once it has
      reached the interval; as the counter is whole, a fractional interval
      such as 79.2 means a spawn on the 80th tick after the last one. */
  predicate SpawnFires(timer: int, interval: real): (b: bool)
    ensures b <==> timer + 1 >= Ceil(interval)
  {
    (timer + 1) as real >= interval
  }

  /** The live obstacles after the spawn check of a tick. */
  function WithSpawn(obstacles: seq<Obstacle>, fires: bool, o: Obstacle): (r: seq<Obstacle>)
    ensures fires ==> |r| == |obstacles| + 1 && r[..|obstacles|] == obstacles && r[|obstacles|] == o
    ensures !fires ==> r == obstacles
  {
    if fires then obstacles + [o] else obstacles
  }

  /** The interval after one spawn: shortened only while above the minimum. */
  function NextInterval(interval: real): (r: real)
    ensures r <= interval
    ensures r < interval <==> interval > MIN_INTERVAL
    ensures r != interval ==> r == interval - INTERVAL_DECREMENT
  {
    if interval > MIN_INTERVAL then interval - INTERVAL_DECREMENT else interval
  }

  /** The interval after `spawns` spawns of a session. */
  function IntervalAfter(spawns: nat): real
  {
    if spawns == 0 then BASE_INTERVAL else NextInterval(IntervalAfter(spawns - 1))
  }

  /** With exact arithmetic the ramp takes 50 steps from 80 and then stops
      at exactly 40. */
  lemma {:induction false} IntervalAfterClosedForm(spawns: nat)
    ensures IntervalAfter(spawns) == if spawns <= 50 then BASE_INTERVAL - INTERVAL_DECREMENT * spawns as real
                                     else MIN_INTERVAL
  {
    if spawns > 0 {
      IntervalAfterClosedForm(spawns - 1);
    }
  }

  /** The interval never leaves [40, 80] and never grows. */
  lemma IntervalBounds(spawns: nat)
    ensures MIN_INTERVAL <= IntervalAfter(spawns) <= BASE_INTERVAL
    ensures IntervalAfter(spawns + 1) <= IntervalAfter(spawns)
  {
    IntervalAfterClosedForm(spawns);
  }

  /** Every obstacle moved left by `speed`, everything else kept. */
  function Advance(obstacles: seq<Obstacle>, speed: real): (r: seq<Obstacle>)
    ensures |r| == |obstacles|
    ensures forall i :: 0 <= i < |r| ==>
              r[i].x == obstacles[i].x - speed && r[i].y == obstacles[i].y
              && r[i].width == obstacles[i].width && r[i].height == obstacles[i].height
              && r[i].kind == obstacles[i].kind
  {
    seq(|obstacles|, i requires 0 <= i < |obstacles| => obstacles[i].(x := obstacles[i].x - speed))
  }

  /** The column `px` lies within the obstacle, edges included. */
  predicate Spans(o: Obstacle, px: real)
  {
    o.x <= px <= o.x + o.width
  }

  /** An obstacle whose right edge has passed the left edge of the field:
      for a box of non-negative width, exactly one of which no column, edges
      included, is still at or right of `x == 0`. */
  predicate OffScreen(o: Obstacle): (b: bool)
    ensures o.width >= 0.0 ==> (b <==> forall px :: Spans(o, px) ==> px < 0.0)
  {
    assert Spans(o, o.x + o.width) <== o.width >= 0.0;
    o.x + o.width < 0.0
  }

  /** The number of obstacles that have left the field. */
  function Passed(obstacles: seq<Obstacle>): (n: nat)
    ensures n <= |obstacles|
  {
    if obstacles == [] then 0
    else Passed(obstacles[..|obstacles| - 1]) + (if OffScreen(obstacles[|obstacles| - 1]) then 1 else 0)
  }

  /** The obstacles the pruning filter keeps, in their original order. */
  function Survivors(obstacles: seq<Obstacle>): (r: seq<Obstacle>)
    ensures |r| + Passed(obstacles) == |obstacles|
  {
    if obstacles == [] then []
    else
      var last := obstacles[|obstacles| - 1];
      Survivors(obstacles[..|obstacles| - 1]) + (if OffScreen(last) then [] else [last])
  }

  /** One step of the filter: the `i`-th obstacle is kept or credited. */
  lemma FilterStep(obstacles: seq<Obstacle>, i: nat)
    requires i < |obstacles|
    ensures Survivors(obstacles[..i + 1])
            == Survivors(obstacles[..i]) + (if OffScreen(obstacles[i]) then [] else [obstacles[i]])
    ensures Passed(obstacles[..i + 1]) == Passed(obstacles[..i]) + (if OffScreen(obstacles[i]) then 1 else 0)
  {
    assert obstacles[..i + 1][..i] == obstacles[..i];
  }

  /** The pruning filter keeps exactly the obstacles that are still on the field. */
  lemma {:induction false} SurvivorsMembers(obstacles: seq<Obstacle>)
    ensures forall o :: o in Survivors(obstacles) <==> o in obstacles && !OffScreen(o)
  {
    if obstacles != [] {
      var front := obstacles[..|obstacles| - 1];
      SurvivorsMembers(front);
      assert obstacles == front + [obstacles[|obstacles| - 1]];
    }
  }

  /** Every obstacle in the sequence has its variant's shape. */
  predicate AllCatalogued(obstacles: seq<Obstacle>, groundY: real)
  {
    forall i :: 0 <= i < |obstacles| ==> Catalogued(obstacles[i], groundY)
  }

  /** Spawning, moving and pruning all keep every obstacle's catalogued shape. */
  lemma CatalogueKept(obstacles: seq<Obstacle>, fires: bool, kind: ObstacleType,
                      canvasWidth: real, groundY: real, speed: real)
    requires AllCatalogued(obstacles, groundY)
    ensures AllCatalogued(Survivors(Advance(WithSpawn(obstacles, fires, NewObstacle(kind, canvasWidth, groundY)), speed)), groundY)
  {
    var moved := Advance(WithSpawn(obstacles, fires, NewObstacle(kind, canvasWidth, groundY)), speed);
    assert AllCatalogued(moved, groundY);
    var r := Survivors(moved);
    SurvivorsMembers(moved);
    forall i | 0 <= i < |r|
      ensures Catalogued(r[i], groundY)
    {
      assert r[i] in moved;
    }
  }

  /** Filtering splits over concatenation, so survivors keep their relative order. */
  lemma {:induction false} SurvivorsAppend(a: seq<Obstacle>, b: seq<Obstacle>)
    ensures Survivors(a + b) == Survivors(a) + Survivors(b)
  {
    if b == [] {
      assert a + b == a;
    } else {
      var b' := b[..|b| - 1];
      var last := b[|b| - 1];
      var tail := if OffScreen(last) then [] else [last];
      assert (a + b)[..|a + b| - 1] == a + b';
      assert (a + b)[|a + b| - 1] == last;
      SurvivorsAppend(a, b');
      assert Survivors(a + b) == Survivors(a + b') + tail;
      assert Survivors(b) == Survivors(b') + tail;
      assert (Survivors(a) + Survivors(b')) + tail == Survivors(a) + (Survivors(b') + tail);
    }
  }

  /** Counting the obstacles that left the field splits over concatenation too. */
  lemma {:induction false} PassedAppend(a: seq<Obstacle>, b: seq<Obstacle>)
    ensures Passed(a + b) == Passed(a) + Passed(b)
  {
    if b == [] {
      assert a + b == a;
    } else {
      var b' := b[..|b| - 1];
      assert (a + b)[..|a + b| - 1] == a + b';
      assert (a + b)[|a + b| - 1] == b[|b| - 1];
      PassedAppend(a, b');
    }
  }

  /** The obstacle speed that belongs to a score: one increment per milestone reached. */
  function SpeedFor(score: int): (s: real)
    // a session starts, and stays below the first milestone, at the base speed
    ensures 0 <= score < SPEED_MILESTONE ==> s == BASE_SPEED
    // the speed never drops below the base and grows at most linearly with the score
    ensures 0 <= score ==> BASE_SPEED <= s <= BASE_SPEED + SPEED_INCREMENT * score as real / SPEED_MILESTONE as real
  {
    BASE_SPEED + SPEED_INCREMENT * (score / SPEED_MILESTONE) as real
  }

  /** A higher score never means slower obstacles. */
  lemma SpeedForMonotone(a: int, b: int)
    requires a <= b
    ensures SpeedFor(a) <= SpeedFor(b)
  {
  }

  /** Crediting one obstacle raises the milestone count by one exactly when the
      new score is a multiple of 100, so the filter's `score % 100 === 0` test
      keeps the speed tied to the score (each milestone is crossed once). */
  lemma MilestoneStep(score: int)
    requires score >= 0 && score % SCORE_PER_OBSTACLE == 0
    ensures SpeedFor(score + SCORE_PER_OBSTACLE)
            == SpeedFor(score) + (if (score + SCORE_PER_OBSTACLE) % SPEED_MILESTONE == 0 then SPEED_INCREMENT else 0.0)
  {
  }
}
