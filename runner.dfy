/** The game session of CyberRunner: the player object, the menu / playing /
    game-over state machine, the fixed tick order (physics, obstacles,
    collision), the running high score and the rule that decides which
    action each input triggers. */
module Runner {
  import opened Physics
  import opened Obstacles
  import opened Collision

  /** The player's fixed horizontal position and size. */
  const PLAYER_X: real := 100.0
  const PLAYER_WIDTH: real := 40.0
  const PLAYER_HEIGHT: real := 40.0
  /** The height a new session places the player at, whatever the ground level. */
  const START_Y: real := 300.0
  /** Distance from the bottom of the canvas to the ground line. */
  const GROUND_MARGIN: real := 50.0

  datatype GameState = Menu | Playing | GameOver

  /** The inputs the page forwards: the Space key, any other key, a click on
      the canvas, and the start and restart buttons. */
  datatype Input = SpaceKey | OtherKey | CanvasClick | StartButton | RestartButton

  datatype Action = JumpRequested | StartRequested | RestartRequested | Ignored

  /** Which action an input triggers in a state: Space jumps while playing and
      starts from the menu; a canvas click jumps only while playing; the
      buttons always start or restart. */
  function Dispatch(state: GameState, input: Input): (a: Action)
    ensures a == JumpRequested <==> state == Playing && (input == SpaceKey || input == CanvasClick)
    ensures a == StartRequested <==> input == StartButton || (input == SpaceKey && state == Menu)
    ensures a == RestartRequested <==> input == RestartButton
  {
    match input
    case SpaceKey => if state == Playing then JumpRequested else if state == Menu then StartRequested else Ignored
    case CanvasClick => if state == Playing then JumpRequested else Ignored
    case StartButton => StartRequested
    case RestartButton => RestartRequested
    case OtherKey => Ignored
  }

  /** The high score after a game ends with `score`: the running maximum. */
  function RecordHighScore(highScore: int, score: int): (r: int)
    ensures r >= highScore && r >= score
    ensures r == highScore || r == score
  {
    if score > highScore then score else highScore
  }

  /** The high score after a series of games ending with the given scores. */
  function BestAfter(highScore: int, scores: seq<int>): int
  {
    if scores == [] then highScore
    else RecordHighScore(BestAfter(highScore, scores[..|scores| - 1]), scores[|scores| - 1])
  }

  /** After any series of games the high score is the largest of the stored
      one and every final score. */
  lemma {:induction false} BestAfterIsMaximum(highScore: int, scores: seq<int>)
    ensures BestAfter(highScore, scores) >= highScore
    ensures forall i :: 0 <= i < |scores| ==> BestAfter(highScore, scores) >= scores[i]
    ensures BestAfter(highScore, scores) == highScore || BestAfter(highScore, scores) in scores
  {
    if scores != [] {
      var front := scores[..|scores| - 1];
      BestAfterIsMaximum(highScore, front);
      assert forall i :: 0 <= i < |front| ==> scores[i] == front[i];
    }
  }

  /** One more game never lowers the high score. */
  lemma BestAfterNonDecreasing(highScore: int, scores: seq<int>, score: int)
    ensures BestAfter(highScore, scores + [score]) >= BestAfter(highScore, scores)
  {
    assert (scores + [score])[..|scores|] == scores;
  }

  /** A player resting on the ground runs under a drone and is struck by
      spikes or a laser exactly when they overlap horizontally. */
  lemma GroundedPlayerVsObstacle(groundY: real, o: Obstacle)
    requires Catalogued(o, groundY)
    ensures Hits(Hitbox(PLAYER_X, groundY - PLAYER_HEIGHT, PLAYER_WIDTH, PLAYER_HEIGHT), o)
            <==> o.kind != Drone && PLAYER_X + HITBOX_INSET < o.x + o.width
                 && o.x < PLAYER_X + PLAYER_WIDTH - HITBOX_INSET
  {
  }

  /** Near the top of a jump (at least 115 pixels above the ground line) the
      hitbox clears the tallest ground obstacle, wherever it stands. */
  lemma HighPlayerClearsGroundObstacles(groundY: real, y: real, o: Obstacle)
    requires Catalogued(o, groundY) && o.kind != Drone
    requires y <= groundY - 115.0
    ensures !Hits(Hitbox(PLAYER_X, y, PLAYER_WIDTH, PLAYER_HEIGHT), o)
  {
  }

  /** An obstacle spawned this tick is moved once before the collision test;
      on a field wide enough for that move it cannot touch the player. */
  lemma FreshSpawnIsClear(kind: ObstacleType, canvasWidth: real, groundY: real, speed: real, y: real)
    requires canvasWidth - speed >= PLAYER_X + PLAYER_WIDTH - HITBOX_INSET
    ensures !Hits(Hitbox(PLAYER_X, y, PLAYER_WIDTH, PLAYER_HEIGHT),
                  Advance([NewObstacle(kind, canvasWidth, groundY)], speed)[0])
  {
  }

  /** The player record; only its height, vertical velocity and jumping flag change. */
  class Player {
    const x: real := PLAYER_X
    const width: real := PLAYER_WIDTH
    const height: real := PLAYER_HEIGHT
    var y: real
    var velocityY: real
    var isJumping: bool

    /** The record `initPlayer` builds. */
    constructor ()
      ensures State() == Body(START_Y, 0.0, false)
    {
      y := START_Y;
      velocityY := 0.0;
      isJumping := false;
    }

    /** The part of the player that physics changes. */
    function State(): Body
      reads this
    {
      Body(y, velocityY, isJumping)
    }
  }

  class CyberRunner {
    const canvasWidth: real
    const canvasHeight: real
    const groundY: real

    var gameState: GameState
    var score: int
    var highScore: int
    var gameSpeed: real
    var player: Player
    var obstacles: seq<Obstacle>
    var obstacleTimer: int
    var obstacleInterval: real
    /** Spawns since the session began: where the interval ramp stands. */
    ghost var spawns: nat

    /** The invariant of the engine: the score is a non-negative multiple of
        10, the speed is tied to it, the interval is a point of the ramp, the
        tick counter is below it, and every obstacle has its variant's shape. */
    ghost predicate Valid()
      reads this
    {
      && groundY == canvasHeight - GROUND_MARGIN
      && 0 <= score && score % SCORE_PER_OBSTACLE == 0
      && gameSpeed == SpeedFor(score)
      && obstacleInterval == IntervalAfter(spawns)
      && 0 <= obstacleTimer && (obstacleTimer as real) < obstacleInterval
      && AllCatalogued(obstacles, groundY)
    }

    /** The state `startGame` leaves: a new session with a new player. */
    ghost predicate FreshSession()
      reads this, player
    {
      && gameState == Playing && score == 0 && gameSpeed == BASE_SPEED
      && obstacles == [] && obstacleTimer == 0 && obstacleInterval == BASE_INTERVAL
      && player.State() == Body(START_Y, 0.0, false)
    }

    /** The box the collision test uses for the player. */
    function PlayerHitbox(): Rect
      reads this, player
    {
      Hitbox(player.x, player.y, player.width, player.height)
    }

    /** The game as the page creates it: in the menu, with the stored high
        score and the player put on the ground. */
    constructor (width: nat, height: nat, savedHighScore: int)
      ensures Valid() && gameState == Menu && score == 0 && highScore == savedHighScore
      ensures gameSpeed == BASE_SPEED && obstacles == [] && obstacleTimer == 0
      ensures obstacleInterval == BASE_INTERVAL
      ensures canvasWidth == width as real && canvasHeight == height as real
      ensures fresh(player) && player.State() == Body(groundY - player.height, 0.0, false)
    {
      var ground := height as real - GROUND_MARGIN;
      var p := new Player();
      p.y := ground - p.height;
      canvasWidth := width as real;
      canvasHeight := height as real;
      groundY := ground;
      gameState := Menu;
      score := 0;
      highScore := savedHighScore;
      gameSpeed := BASE_SPEED;
      player := p;
      obstacles := [];
      obstacleTimer := 0;
      obstacleInterval := BASE_INTERVAL;
      spawns := 0;
    }

    /** `startGame`: resets the session from any state, including `Playing`. */
    method StartGame()
      requires Valid()
      modifies this
      ensures Valid() && FreshSession() && fresh(player) && highScore == old(highScore)
    {
      gameState := Playing;
      score := 0;
      gameSpeed := BASE_SPEED;
      player := new Player();
      obstacles := [];
      obstacleTimer := 0;
      obstacleInterval := BASE_INTERVAL;
      spawns := 0;
    }

    /** `restartGame` takes the same reset path as a fresh start. */
    method RestartGame()
      requires Valid()
      modifies this
      ensures Valid() && FreshSession() && fresh(player) && highScore == old(highScore)
    {
      StartGame();
    }

    /** `jump`: applied at once, and only to a player that is not already jumping. */
    method Jump()
      modifies player
      ensures player.State() == Jumped(old(player.State()))
    {
      if !player.isJumping {
        player.velocityY := JUMP_POWER;
        player.isJumping := true;
      }
    }

    /** The physics half of `updatePlayer`. */
    method UpdatePlayer()
      modifies player
      ensures player.State() == Fall(old(player.State()), groundY - player.height)
    {
      player.velocityY := player.velocityY + GRAVITY;
      player.y := player.y + player.velocityY;
      if player.y >= groundY - player.height {
        player.y := groundY - player.height;
        player.velocityY := 0.0;
        player.isJumping := false;
      }
    }

    /** The spawn half of `updateObstacles`: count the tick and, once the
        counter reaches the interval, append one obstacle of the variant
        `kind`, reset the counter and shorten the interval. */
    method SpawnObstacle(kind: ObstacleType)
      requires Valid()
      modifies this`obstacles, this`obstacleTimer, this`obstacleInterval, this`spawns
      ensures Valid()
      ensures var fires := SpawnFires(old(obstacleTimer), old(obstacleInterval));
              && obstacles == WithSpawn(old(obstacles), fires, NewObstacle(kind, canvasWidth, groundY))
              && obstacleTimer == (if fires then 0 else old(obstacleTimer) + 1)
              && obstacleInterval == (if fires then NextInterval(old(obstacleInterval)) else old(obstacleInterval))
    {
      obstacleTimer := obstacleTimer + 1;
      if obstacleTimer as real >= obstacleInterval {
        var obstacle := NewObstacle(kind, canvasWidth, groundY);
        obstacles := obstacles + [obstacle];
        obstacleTimer := 0;
        if obstacleInterval > MIN_INTERVAL {
          obstacleInterval := obstacleInterval - INTERVAL_DECREMENT;
        }
        spawns := spawns + 1;
      }
      IntervalBounds(spawns);
    }

    /** The `forEach` of `updateObstacles`: every obstacle moves left by the
        current speed. */
    method MoveObstacles()
      modifies this`obstacles
      ensures obstacles == Advance(old(obstacles), gameSpeed)
    {
      var i := 0;
      while i < |obstacles|
        invariant 0 <= i <= |obstacles| == |old(obstacles)|
        invariant forall j :: 0 <= j < i ==> obstacles[j] == old(obstacles)[j].(x := old(obstacles)[j].x - gameSpeed)
        invariant forall j :: i <= j < |obstacles| ==> obstacles[j] == old(obstacles)[j]
      {
        obstacles := obstacles[i := obstacles[i].(x := obstacles[i].x - gameSpeed)];
        i := i + 1;
      }
    }

    /** The `filter` of `updateObstacles`: drop the obstacles that left the
        field, crediting 10 points for each and raising the speed every time
        the score reaches a multiple of 100. */
    method PruneObstacles()
      requires 0 <= score && score % SCORE_PER_OBSTACLE == 0 && gameSpeed == SpeedFor(score)
      modifies this`obstacles, this`score, this`gameSpeed
      ensures obstacles == Survivors(old(obstacles))
      ensures score == old(score) + SCORE_PER_OBSTACLE * Passed(old(obstacles))
      ensures 0 <= score && score % SCORE_PER_OBSTACLE == 0 && gameSpeed == SpeedFor(score)
    {
      var live := obstacles;
      var kept: seq<Obstacle> := [];
      var i := 0;
      while i < |live|
        modifies this`score, this`gameSpeed
        invariant 0 <= i <= |live|
        invariant kept == Survivors(live[..i])
        invariant score == old(score) + SCORE_PER_OBSTACLE * Passed(live[..i])
        invariant 0 <= score && score % SCORE_PER_OBSTACLE == 0
        invariant gameSpeed == SpeedFor(score)
      {
        var obstacle := live[i];
        FilterStep(live, i);
        if OffScreen(obstacle) {
          MilestoneStep(score);
          score := score + SCORE_PER_OBSTACLE;
          if score % SPEED_MILESTONE == 0 {
            gameSpeed := gameSpeed + SPEED_INCREMENT;
          }
        } else {
          kept := kept + [obstacle];
        }
        i := i + 1;
      }
      assert live[..|live|] == live;
      obstacles := kept;
    }

    /** `updateObstacles`: spawn, then move every obstacle (the new one
        included) at the speed the tick began with, then prune. */
    method UpdateObstacles(kind: ObstacleType)
      requires Valid()
      modifies this`obstacles, this`obstacleTimer, this`obstacleInterval, this`score,
               this`gameSpeed, this`spawns
      ensures Valid()
      ensures var fires := SpawnFires(old(obstacleTimer), old(obstacleInterval));
              var moved := Advance(WithSpawn(old(obstacles), fires, NewObstacle(kind, canvasWidth, groundY)),
                                   old(gameSpeed));
              && obstacles == Survivors(moved)
              && score == old(score) + SCORE_PER_OBSTACLE * Passed(moved)
              && obstacleTimer == (if fires then 0 else old(obstacleTimer) + 1)
              && obstacleInterval == (if fires then NextInterval(old(obstacleInterval)) else old(obstacleInterval))
    {
      CatalogueKept(obstacles, SpawnFires(obstacleTimer, obstacleInterval), kind, canvasWidth, groundY, gameSpeed);
      SpawnObstacle(kind);
      MoveObstacles();
      PruneObstacles();
    }

    /** `gameOver`: ends the session and keeps the high score as a running maximum. */
    method GameOver()
      modifies this`gameState, this`highScore
      ensures gameState == GameState.GameOver && highScore == RecordHighScore(old(highScore), score)
    {
      gameState := GameState.GameOver;
      if score > highScore {
        highScore := score;
      }
    }

    /** `checkCollisions`: the first obstacle overlapping the hitbox ends the game. */
    method CheckCollisions()
      modifies this`gameState, this`highScore
      ensures CollidesAny(PlayerHitbox(), obstacles) ==>
                gameState == GameState.GameOver && highScore == RecordHighScore(old(highScore), score)
      ensures !CollidesAny(PlayerHitbox(), obstacles) ==>
                gameState == old(gameState) && highScore == old(highScore)
    {
      var playerRect := PlayerHitbox();
      var i := 0;
      while i < |obstacles|
        invariant 0 <= i <= |obstacles|
        invariant forall j :: 0 <= j < i ==> !Hits(playerRect, obstacles[j])
      {
        if Hits(playerRect, obstacles[i]) {
          GameOver();
          return;
        }
        i := i + 1;
      }
    }

    /** `update`, the tick: only while playing, physics, then obstacles, then
        collision against the moved obstacles; `kind` is the variant a spawn
        in this tick would take. */
    method Update(kind: ObstacleType)
      requires Valid()
      modifies this, player
      ensures Valid() && highScore >= old(highScore) && obstacleInterval <= old(obstacleInterval)
      ensures gameSpeed >= old(gameSpeed)
      ensures old(gameState) != Playing ==> unchanged(this) && unchanged(player)
      ensures old(gameState) == Playing ==>
                && player == old(player)
                && player.State() == Fall(old(player.State()), groundY - player.height)
                && player.y <= groundY - player.height
                && (var fires := SpawnFires(old(obstacleTimer), old(obstacleInterval));
                    var moved := Advance(WithSpawn(old(obstacles), fires, NewObstacle(kind, canvasWidth, groundY)),
                                         old(gameSpeed));
                    && obstacles == Survivors(moved)
                    && score == old(score) + SCORE_PER_OBSTACLE * Passed(moved)
                    && obstacleTimer == (if fires then 0 else old(obstacleTimer) + 1)
                    && obstacleInterval == (if fires then NextInterval(old(obstacleInterval))
                                            else old(obstacleInterval)))
                && gameState == (if CollidesAny(PlayerHitbox(), obstacles) then GameState.GameOver else Playing)
                && highScore == (if gameState == GameState.GameOver then RecordHighScore(old(highScore), score)
                                 else old(highScore))
    {
      if gameState == Playing {
        ghost var score0 := score;
        UpdatePlayer();
        UpdateObstacles(kind);
        SpeedForMonotone(score0, score);
        CheckCollisions();
      }
    }

    /** The handlers `bindEvents` installs: each input triggers the action
        `Dispatch` picks for the current state, at once. */
    method HandleInput(input: Input)
      requires Valid()
      modifies this, player
      ensures Valid()
      ensures match Dispatch(old(gameState), input)
              case JumpRequested => unchanged(this) && player.State() == Jumped(old(player.State()))
              case StartRequested => FreshSession() && fresh(player) && highScore == old(highScore)
              case RestartRequested => FreshSession() && fresh(player) && highScore == old(highScore)
              case Ignored => unchanged(this) && unchanged(player)
    {
      match Dispatch(gameState, input)
      case JumpRequested => Jump();
      case StartRequested => StartGame();
      case RestartRequested => RestartGame();
      case Ignored =>
    }
  }
}
