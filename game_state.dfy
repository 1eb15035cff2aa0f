/** The FlepBerd game loop as one object: its fields are the program's
    globals, and each routine of the game becomes a method that updates them
    in place. Every raylib query the routines make (frame time, screen size,
    random heights, key state) is a parameter, and every `PlaySound` call
    appends the sound to the ghost log `sounds`. */
module Game {
  import opened Rules
  import DevUtils

  class GameState {
    var birdPos: Vector2
    var birdVelocity: Vector2
    var birdAngle: int
    var points: int
    var isAlive: bool
    var spacePressed: bool
    var generatePipes: bool
    var currentScreen: GameScreen
    /** The fixed obstacle field, `struct PipePair pipes[5]`. */
    const pipes: array<PipePair>
    /** Every sound played so far, oldest first. */
    ghost var sounds: seq<Sound>

    /** What holds between frames: five slots whose pipes stand side by side,
        the bird's height and angle inside their clamp ranges, its velocity at
        most one flap below the velocity clamp, and a non-negative score.
        The frame methods keep it; the helpers they call state their whole
        new state instead and leave it to them. */
    ghost predicate Valid()
      reads this, pipes
    {
      pipes.Length == 5 &&
      (forall k :: 0 <= k < 5 ==> Aligned(pipes[k])) &&
      0.0 <= birdPos.y <= GroundClamp &&
      MaxNegativeBirdAngle <= birdAngle <= MaxPositiveBirdAngle &&
      MaxPositiveBirdVelocity - FlapForce <= birdVelocity.y <= MaxNegativeBirdVelocity &&
      points >= 0
    }

    /** The globals as a value. */
    ghost function Snapshot(): Globals
      reads this, pipes
    {
      Globals(birdPos, birdVelocity, birdAngle, points, isAlive, spacePressed, generatePipes,
              currentScreen, pipes[..], sounds)
    }

    /** The globals as the program starts: the bird at rest in the middle of
        the screen, on the title screen, every slot value-initialised. */
    constructor ()
      ensures Valid() && fresh(pipes)
      ensures birdPos == Vector2(400.0, 225.0) && birdVelocity == Vector2(0.0, 0.0) && birdAngle == 0
      ensures points == 0 && isAlive && !spacePressed && generatePipes && currentScreen == Title
      ensures pipes[..] == seq(5, _ => EmptyPair) && sounds == []
    {
      birdPos := Vector2(400.0, 225.0);
      birdVelocity := Vector2(0.0, 0.0);
      birdAngle := 0;
      currentScreen := Title;
      points := 0;
      spacePressed := false;
      isAlive := true;
      generatePipes := true;
      pipes := new PipePair[5](_ => EmptyPair);
      sounds := [];
    }

    /** `ResetGameLoop()`: the bird back to the middle of the screen at rest,
        the score to zero, every slot value-initialised, alive, and the pipes
        due to be generated again. The angle, the space latch and the screen
        are left as they were. */
    method ResetGameLoop()
      requires Valid()
      modifies this`birdPos, this`birdVelocity, this`points, this`isAlive, this`generatePipes, pipes
      ensures Valid()
      ensures birdPos == Vector2(ScreenProportions.x / 2.0, ScreenProportions.y / 2.0)
      ensures birdVelocity == Vector2(0.0, 0.0) && points == 0
      ensures pipes[..] == seq(5, _ => EmptyPair)
      ensures isAlive && generatePipes
    {
      birdPos := Vector2(ScreenProportions.x / 2.0, ScreenProportions.y / 2.0);
      birdVelocity := Vector2(0.0, 0.0);
      points := 0;

      var i := 0;
      while i < 5
        invariant 0 <= i <= 5
        invariant forall k :: 0 <= k < i ==> pipes[k] == EmptyPair
        invariant forall k :: i <= k < 5 ==> pipes[k] == old(pipes[k])
        modifies pipes
      {
        pipes[i] := EmptyPair;
        i := i + 1;
      }

      isAlive := true;
      generatePipes := true;
    }

    /** `TriggerDeath()`: play the death sound and mark the bird dead. There
        is no guard, so a bird that is already dead plays it again. */
    method TriggerDeath()
      modifies this`isAlive, this`sounds
      ensures !isAlive && sounds == old(sounds) + [DeathSound]
    {
      sounds := sounds + [DeathSound];
      isAlive := false;
    }

    /** `MaintainPipesInBounds(pipes[i])`: scroll the pair in slot `i` left by
        `ScrollingSpeed * dt`, both pipes taking the upper pipe's new x, and
        once either pipe's right edge passes the left screen edge replace it by
        a fresh pair at the recycling offset. No other slot changes. */
    method MaintainPipesInBounds(i: int, dt: real, randomPipeHeight: int, screenWidth: int, screenHeight: int)
      requires 0 <= i < pipes.Length
      modifies pipes
      ensures pipes[..] == old(pipes[..])[i := Scrolled(old(pipes[i]), dt, randomPipeHeight, screenWidth, screenHeight)]
      ensures Aligned(pipes[i])
    {
      ghost var p := pipes[i];
      pipes[i] := WithUpperX(pipes[i], pipes[i].upperPipe.position.x - ScrollingSpeed * dt);
      pipes[i] := WithLowerX(pipes[i], pipes[i].upperPipe.position.x);

      var upperPipe, lowerPipe := pipes[i].upperPipe, pipes[i].lowerPipe;
      var pipesOutOfBounds := upperPipe.position.x < -upperPipe.dimensions.x || lowerPipe.position.x < -lowerPipe.dimensions.x;
      assert pipesOutOfBounds == OutOfBounds(p, p.upperPipe.position.x - ScrollingSpeed * dt);

      if pipesOutOfBounds {
        pipes[i] := GeneratePipePair(randomPipeHeight, screenWidth, screenHeight);
        pipes[i] := WithUpperX(pipes[i], RecycleX(screenWidth));
        pipes[i] := WithLowerX(pipes[i], RecycleX(screenWidth));
      }
    }

    /** `CheckForCollisions(pipes[i])`: one death per pipe of the pair the
        bird's hitbox overlaps; then, if the hitbox is in the pair's portal and
        the pair has not yet paid out, raise its flag, add one point and play
        the point sound and the milestone sound of the new score. */
    method CheckForCollisions(i: int)
      requires 0 <= i < pipes.Length
      modifies pipes, this`isAlive, this`points, this`sounds
      ensures pipes[i] == Marked(birdPos, old(pipes[i]))
      ensures forall k :: 0 <= k < pipes.Length && k != i ==> pipes[k] == old(pipes[k])
      ensures isAlive == (old(isAlive) && !HitsPipe(birdPos, old(pipes[i])))
      ensures points == old(points) + (if Scores(birdPos, old(pipes[i])) then 1 else 0)
      ensures old(pipes[i].pointsCollected) ==> points == old(points)
      ensures pipes[i].pointsCollected
                == (old(pipes[i].pointsCollected) || CheckCollisionRecs(BirdRect(birdPos), PortalRect(old(pipes[i]))))
      ensures sounds == old(sounds) + CollisionSounds(birdPos, old(pipes[i]), old(points))
    {
      var upperPipe, lowerPipe := pipes[i].upperPipe, pipes[i].lowerPipe;

      var birdRect := BirdRect(birdPos);
      var upperPipeRect := PipeRect(upperPipe);
      var lowerPipeRect := PipeRect(lowerPipe);
      var pipeDeltaRect := PortalRect(pipes[i]);

      var collidedWithUpperPipe := CheckCollisionRecs(birdRect, upperPipeRect);
      var collidedWithLowerPipe := CheckCollisionRecs(birdRect, lowerPipeRect);
      var passedThroughPipes := CheckCollisionRecs(birdRect, pipeDeltaRect);

      if collidedWithUpperPipe { TriggerDeath(); }
      if collidedWithLowerPipe { TriggerDeath(); }
      assert sounds == old(sounds) + HitSounds(birdPos, pipes[i]);

      if passedThroughPipes && !pipes[i].pointsCollected {
        pipes[i] := pipes[i].(pointsCollected := true);
        points := points + 1;
        sounds := sounds + [PointSound];
        assert sounds + Milestone(points) == old(sounds) + CollisionSounds(birdPos, old(pipes[i]), old(points));
        PlayMilestone();
      }
    }

    /** The milestone sound of the current score, if any: tested in the order
        100, 50, 10, the first match winning. */
    method PlayMilestone()
      modifies this`sounds
      ensures sounds == old(sounds) + Milestone(points)
    {
      if points % 100 == 0 {
        sounds := sounds + [Combo100Sound];
      } else if points % 50 == 0 {
        sounds := sounds + [Combo50Sound];
      } else if points % 10 == 0 {
        sounds := sounds + [Combo10Sound];
      } else {
        assert sounds + [] == sounds;
      }
    }

    /** One turn of the main loop's pipe loop on slot `i`: the pair is
        scrolled (recycled with `randomPipeHeight`) and then checked against
        the bird. */
    method AdvanceSlot(i: int, dt: real, randomPipeHeight: int, screenWidth: int, screenHeight: int)
      requires 0 <= i < pipes.Length
      modifies pipes, this`isAlive, this`points, this`sounds
      ensures var p := Scrolled(old(pipes[i]), dt, randomPipeHeight, screenWidth, screenHeight);
        pipes[i] == Marked(birdPos, p) &&
        isAlive == (old(isAlive) && !HitsPipe(birdPos, p)) &&
        points == old(points) + (if Scores(birdPos, p) then 1 else 0) &&
        sounds == old(sounds) + CollisionSounds(birdPos, p, old(points))
      ensures forall k :: 0 <= k < pipes.Length && k != i ==> pipes[k] == old(pipes[k])
      ensures Aligned(pipes[i])
    {
      MaintainPipesInBounds(i, dt, randomPipeHeight, screenWidth, screenHeight);
      CheckForCollisions(i);
    }

    /** The first generation of pipes: slot `i` gets a fresh pair, moved for
        `i > 0` to `PipeGap` right of the slot before it; then generation is
        switched off. `heights[i]` is slot `i`'s random height. */
    method GenerateInitialPipes(heights: seq<int>, screenWidth: int, screenHeight: int)
      requires Valid() && |heights| == 5
      modifies pipes, this`generatePipes
      ensures Valid() && !generatePipes
      ensures pipes[..] == InitialPipes(heights, screenWidth, screenHeight)
    {
      var i := 0;
      while i < 5
        invariant 0 <= i <= 5
        invariant forall k :: 0 <= k < i ==> pipes[k] == InitialPipes(heights, screenWidth, screenHeight)[k]
        invariant forall k :: i <= k < 5 ==> pipes[k] == old(pipes[k])
        modifies pipes
      {
        pipes[i] := GeneratePipePair(heights[i], screenWidth, screenHeight);
        if i != 0 {
          pipes[i] := WithUpperX(pipes[i], pipes[i - 1].upperPipe.position.x + PipeGap as real);
          pipes[i] := WithLowerX(pipes[i], pipes[i - 1].lowerPipe.position.x + PipeGap as real);
        }
        i := i + 1;
      }
      generatePipes := false;
    }

    /** The title screen's update: space switches to gameplay. */
    method LeaveTitle(spaceDown: bool)
      requires currentScreen == Title
      modifies this`currentScreen
      ensures currentScreen == if spaceDown then Gameplay else Title
    {
      if spaceDown {
        currentScreen := Gameplay;
      }
    }

    /** The bird's half of a live frame: `Fall`, then `Steer`.
        `angleIncrement` stands for the truncated `100 * dt` angle increase. */
    method MoveBird(dt: real, angleIncrement: int, spaceDown: bool, spaceReleased: bool)
      modifies this`birdPos, this`birdVelocity, this`birdAngle, this`spacePressed, this`sounds
      ensures var b := Fly(old(birdPos.y), old(birdVelocity.y), old(birdAngle), old(spacePressed),
                           dt, angleIncrement, spaceDown, spaceReleased);
        birdPos == old(birdPos).(y := b.posY) && birdVelocity == old(birdVelocity).(y := b.velocityY) &&
        birdAngle == b.angle && spacePressed == b.spacePressed &&
        sounds == old(sounds) + (if b.flapped then [FlapSound] else [])
    {
      Fall(dt, angleIncrement);
      Steer(spaceDown, spaceReleased);
    }

    /** Gravity, integration and the angle increase, then the three clamps. */
    method Fall(dt: real, angleIncrement: int)
      modifies this`birdPos, this`birdVelocity, this`birdAngle
      ensures var v1 := old(birdVelocity.y) + BirdGravity * dt;
        birdVelocity == old(birdVelocity).(y := DevUtils.Clamp(v1, MaxPositiveBirdVelocity, MaxNegativeBirdVelocity)) &&
        birdPos == old(birdPos).(y := DevUtils.Clamp(old(birdPos.y) + v1 * dt, 0.0, GroundClamp)) &&
        birdAngle == ClampAngle(old(birdAngle) + angleIncrement)
    {
      // Gravity
      birdVelocity := birdVelocity.(y := birdVelocity.y + BirdGravity * dt);
      birdPos := birdPos.(y := birdPos.y + birdVelocity.y * dt);
      birdAngle := birdAngle + angleIncrement;

      // Clamps
      birdAngle := ClampAngle(birdAngle);
      birdVelocity := birdVelocity.(y := DevUtils.Clamp(birdVelocity.y, MaxPositiveBirdVelocity, MaxNegativeBirdVelocity));
      birdPos := birdPos.(y := DevUtils.Clamp(birdPos.y, 0.0, GroundClamp));
    }

    /** A flap on a space press that is not latched yet, the latch cleared on
        release and the bounce at the roof. */
    method Steer(spaceDown: bool, spaceReleased: bool)
      modifies this`birdVelocity, this`birdAngle, this`spacePressed, this`sounds
      ensures var b := Rules.Steer(birdPos.y, old(birdVelocity.y), old(birdAngle), spaceDown, spaceReleased, old(spacePressed));
        birdVelocity == old(birdVelocity).(y := b.velocityY) &&
        birdAngle == b.angle && spacePressed == b.spacePressed &&
        sounds == old(sounds) + (if b.flapped then [FlapSound] else [])
    {
      if spaceDown && !spacePressed {
        birdVelocity := birdVelocity.(y := birdVelocity.y - FlapForce);
        birdAngle := MaxNegativeBirdAngle;
        sounds := sounds + [FlapSound];
        spacePressed := true;
      }

      if spaceReleased {
        spacePressed := false;
      }

      // Bounce back from the roof
      if birdPos.y == 0.0 {
        birdVelocity := birdVelocity.(y := MaxNegativeBirdVelocity);
      }
    }

    /** The obstacle half of a live frame: every slot in turn is scrolled
        (recycled with `heights[i]` when it leaves the screen) and then
        checked against the bird. */
    method SweepPipes(dt: real, screenWidth: int, screenHeight: int, heights: seq<int>)
      requires Valid() && |heights| == 5
      modifies pipes, this`isAlive, this`points, this`sounds
      ensures Valid()
      ensures Snapshot() == SweepNext(old(Snapshot()), dt, heights, screenWidth, screenHeight)
    {
      ghost var g0 := Snapshot();
      ghost var scrolled := ScrolledAll(g0.pipes, dt, heights, screenWidth, screenHeight);
      SweepSlots(dt, screenWidth, screenHeight, heights);
      assert pipes[..] == MarkAll(birdPos, scrolled);
      assert Snapshot() == g0.(points := points, isAlive := isAlive, pipes := pipes[..], sounds := sounds);
    }

    /** The loop over the slots, slot by slot. */
    method SweepSlots(dt: real, screenWidth: int, screenHeight: int, heights: seq<int>)
      requires pipes.Length == 5 && |heights| == 5
      modifies pipes, this`isAlive, this`points, this`sounds
      ensures var scrolled := ScrolledAll(old(pipes[..]), dt, heights, screenWidth, screenHeight);
        (forall k :: 0 <= k < |scrolled| ==> pipes[k] == Marked(birdPos, scrolled[k])) &&
        points == old(points) + SweepPoints(birdPos, scrolled, |scrolled|) &&
        isAlive == (old(isAlive) && !AnyHit(birdPos, scrolled, |scrolled|)) &&
        sounds == SweepLog(old(sounds), birdPos, scrolled, |scrolled|, old(points))
      ensures forall k :: 0 <= k < 5 ==> Aligned(pipes[k])
    {
      ghost var start, points0, sounds0, alive0 := pipes[..], points, sounds, isAlive;
      ghost var bird := birdPos;
      ghost var scrolled := ScrolledAll(start, dt, heights, screenWidth, screenHeight);
      var i := 0;
      while i < 5
        invariant 0 <= i <= 5 && birdPos == bird
        invariant forall k :: 0 <= k < i ==> pipes[k] == Marked(bird, scrolled[k]) && Aligned(pipes[k])
        invariant forall k :: i <= k < 5 ==> pipes[k] == start[k]
        invariant points == points0 + SweepPoints(bird, scrolled, i)
        invariant sounds == SweepLog(sounds0, bird, scrolled, i, points0)
        invariant isAlive == (alive0 && !AnyHit(bird, scrolled, i))
      {
        SweepStep(sounds0, bird, scrolled, i, points0, sounds, points);
        assert Scrolled(pipes[i], dt, heights[i], screenWidth, screenHeight) == scrolled[i];
        AdvanceSlot(i, dt, heights[i], screenWidth, screenHeight);
        i := i + 1;
      }
    }

    /** The bird's half of a live frame: it moves, and a live bird that
        reaches the ground dies. */
    method LandBird(dt: real, angleIncrement: int, spaceDown: bool, spaceReleased: bool, screenHeight: int)
      requires Valid()
      modifies this`birdPos, this`birdVelocity, this`birdAngle, this`spacePressed, this`isAlive, this`sounds
      ensures Valid()
      ensures Snapshot() == LandNext(old(Snapshot()), dt, angleIncrement, spaceDown, spaceReleased, screenHeight)
    {
      MoveBird(dt, angleIncrement, spaceDown, spaceReleased);
      if birdPos.y == screenHeight as real && isAlive {
        TriggerDeath();
      } else {
        assert sounds + [] == sounds;
      }
    }

    /** One frame of a live bird: the bird moves and dies on reaching the
        ground, then the obstacles move and are checked.
        `heights[i]` is the random height slot `i` is recycled with. */
    method AliveStep(dt: real, angleIncrement: int, spaceDown: bool, spaceReleased: bool,
                     screenWidth: int, screenHeight: int, heights: seq<int>)
      requires Valid() && isAlive && |heights| == 5
      modifies this`birdPos, this`birdVelocity, this`birdAngle, this`spacePressed,
               this`isAlive, this`points, this`sounds, pipes
      ensures Valid()
      ensures Snapshot() == AliveNext(old(Snapshot()),
                FrameInput(dt, angleIncrement, spaceDown, spaceReleased, screenWidth, screenHeight, heights))
    {
      LandBird(dt, angleIncrement, spaceDown, spaceReleased, screenHeight);
      SweepPipes(dt, screenWidth, screenHeight, heights);
    }

    /** One pass of the main loop, drawing aside: on the title screen space
        starts the game; in gameplay the frame is `PlayFrame`.
        `initialHeights` and `heights` are the random heights drawn by the
        first generation and by recycling. */
    method Frame(dt: real, angleIncrement: int, spaceDown: bool, spaceReleased: bool,
                 screenWidth: int, screenHeight: int, initialHeights: seq<int>, heights: seq<int>)
      requires Valid() && |initialHeights| == 5 && |heights| == 5
      modifies this, pipes
      ensures Valid()
      ensures Snapshot() == FrameNext(old(Snapshot()), initialHeights,
                FrameInput(dt, angleIncrement, spaceDown, spaceReleased, screenWidth, screenHeight, heights))
    {
      if currentScreen == Title {
        LeaveTitle(spaceDown);
      } else {
        PlayFrame(dt, angleIncrement, spaceDown, spaceReleased, screenWidth, screenHeight, initialHeights, heights);
      }
    }

    /** A gameplay frame: the pipes are generated if due, then a live bird
        takes a frame, while a dead one waits for space to restart. */
    method PlayFrame(dt: real, angleIncrement: int, spaceDown: bool, spaceReleased: bool,
                     screenWidth: int, screenHeight: int, initialHeights: seq<int>, heights: seq<int>)
      requires Valid() && |initialHeights| == 5 && |heights| == 5
      modifies this`birdPos, this`birdVelocity, this`birdAngle, this`spacePressed, this`points,
               this`isAlive, this`generatePipes, this`sounds, pipes
      ensures Valid()
      ensures Snapshot() == PlayNext(old(Snapshot()), initialHeights,
                FrameInput(dt, angleIncrement, spaceDown, spaceReleased, screenWidth, screenHeight, heights))
    {
      ghost var g0 := Snapshot();
      if generatePipes {
        GenerateInitialPipes(initialHeights, screenWidth, screenHeight);
      }
      assert Snapshot() == GenerateIfDue(g0, initialHeights, screenWidth, screenHeight);
      if isAlive {
        AliveStep(dt, angleIncrement, spaceDown, spaceReleased, screenWidth, screenHeight, heights);
      } else if spaceDown {
        ResetGameLoop();
      }
    }
  }
}
