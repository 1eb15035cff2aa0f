/** The value types and the pure rules of the FlepBerd game loop: pipe-pair
    generation and scrolling, the rectangles collisions are tested on, the
    scoring and milestone-sound rules, and the bird's per-frame physics. The
    stateful game itself is the class in module Game. */
module Rules {
  import DevUtils

  datatype GameScreen = Title | Gameplay

  datatype PipeDirection = Upper | Lower

  datatype Vector2 = Vector2(x: real, y: real)

  datatype Pipe = Pipe(direction: PipeDirection, position: Vector2, dimensions: Vector2)

  /** Two pipes and the flag that says this pair has already awarded its point. */
  datatype PipePair = PipePair(upperPipe: Pipe, lowerPipe: Pipe, pointsCollected: bool)

  datatype Rectangle = Rectangle(x: real, y: real, width: real, height: real)

  /** The sounds the game plays; every `PlaySound` call appends one to a log. */
  datatype Sound = FlapSound | DeathSound | PointSound | Combo10Sound | Combo50Sound | Combo100Sound

  // The source's names: the most upward ("positive") velocity is -250 and the
  // most downward ("negative") is 500, as screen y grows downwards.
  const MaxPositiveBirdVelocity: real := -250.0
  const MaxNegativeBirdVelocity: real := 500.0
  const MaxPositiveBirdAngle: int := 85
  const MaxNegativeBirdAngle: int := -45
  const PipeGap: int := 200
  const PipePortalGap: int := 100
  const PipeWidth: int := 30
  const ScrollingSpeed: real := 200.0
  const ScreenProportions: Vector2 := Vector2(800.0, 450.0)
  const BirdGravity: real := 1000.0
  const FlapForce: real := 1750.0
  const BirdSize: Vector2 := Vector2(20.0, 20.0)
  /** The literal upper bound of the bird's y clamp. */
  const GroundClamp: real := 450.0

  /** A value-initialised `Pipe` (`{}`): tag UPPER, everything zero. */
  const ZeroPipe: Pipe := Pipe(Upper, Vector2(0.0, 0.0), Vector2(0.0, 0.0))

  /** A value-initialised `PipePair`, the state of every slot before the first
      generation and after a reset. */
  const EmptyPair: PipePair := PipePair(ZeroPipe, ZeroPipe, false)

  // ---------------------------------------------------------------------
  // Pipe pairs

  /** `generate_pipe_pair()`, with `GetRandomValue(...)`, `GetScreenWidth()` and
      `GetScreenHeight()` as parameters. The lower pipe is tagged UPPER and its
      height adds the portal gap instead of subtracting it, as written. */
  function GeneratePipePair(randomPipeHeight: int, screenWidth: int, screenHeight: int): (p: PipePair)
    ensures Aligned(p) && !p.pointsCollected
    ensures p.upperPipe.position == Vector2(screenWidth as real, 0.0)
    ensures p.upperPipe.dimensions.y == randomPipeHeight as real
    ensures PortalRect(p) == Rectangle(screenWidth as real, randomPipeHeight as real, PipeWidth as real, PipePortalGap as real)
  {
    var upperPipe := Pipe(Upper, Vector2(screenWidth as real, 0.0),
                          Vector2(PipeWidth as real, randomPipeHeight as real));
    var lowerPipe := Pipe(Upper, Vector2(screenWidth as real, upperPipe.dimensions.y + PipePortalGap as real),
                          Vector2(PipeWidth as real, screenHeight as real - upperPipe.dimensions.y + PipePortalGap as real));
    PipePair(upperPipe, lowerPipe, false)
  }

  /** Both pipes of a pair stand at the same x. */
  predicate Aligned(p: PipePair)
  {
    p.upperPipe.position.x == p.lowerPipe.position.x
  }

  /** `p` with both pipes moved to `x`. */
  function AtX(p: PipePair, x: real): (q: PipePair)
    ensures Aligned(q) && q.upperPipe.position.x == x
  {
    p.(upperPipe := p.upperPipe.(position := p.upperPipe.position.(x := x)),
       lowerPipe := p.lowerPipe.(position := p.lowerPipe.position.(x := x)))
  }

  /** `p` with only the upper pipe's x set to `x`. */
  function WithUpperX(p: PipePair, x: real): (q: PipePair)
    ensures q.upperPipe.position.x == x && q.lowerPipe == p.lowerPipe
    ensures q.pointsCollected == p.pointsCollected && q.upperPipe.dimensions == p.upperPipe.dimensions
  {
    p.(upperPipe := p.upperPipe.(position := p.upperPipe.position.(x := x)))
  }

  /** `p` with only the lower pipe's x set to `x`. */
  function WithLowerX(p: PipePair, x: real): (q: PipePair)
    ensures q.lowerPipe.position.x == x && q.upperPipe == p.upperPipe
    ensures q.pointsCollected == p.pointsCollected && q.lowerPipe.dimensions == p.lowerPipe.dimensions
  {
    p.(lowerPipe := p.lowerPipe.(position := p.lowerPipe.position.(x := x)))
  }

  /** Where a recycled pair is put: one pipe gap beyond the right edge, less a
      pipe's width. */
  function RecycleX(screenWidth: int): real
  {
    (screenWidth + PipeGap - PipeWidth) as real
  }

  /** Either pipe's right edge has passed the left edge of the screen, for a
      pair whose pipes are both at `x`. */
  predicate OutOfBounds(p: PipePair, x: real)
  {
    x < -p.upperPipe.dimensions.x || x < -p.lowerPipe.dimensions.x
  }

  /** The pair `MaintainPipesInBounds` leaves in a slot that held `p`: both pipes
      at the upper pipe's x moved left by `ScrollingSpeed * dt`, or, once that
      is out of bounds, a fresh pair at the recycling offset. */
  function Scrolled(p: PipePair, dt: real, randomPipeHeight: int, screenWidth: int, screenHeight: int): (q: PipePair)
    ensures Aligned(q)
    ensures q.pointsCollected ==> p.pointsCollected
    ensures q.upperPipe.position.x == p.upperPipe.position.x - ScrollingSpeed * dt ||
            q.upperPipe.position.x == RecycleX(screenWidth)
  {
    var x := p.upperPipe.position.x - ScrollingSpeed * dt;
    if OutOfBounds(p, x) then AtX(GeneratePipePair(randomPipeHeight, screenWidth, screenHeight), RecycleX(screenWidth))
    else AtX(p, x)
  }

  /** The scrolled pair of every slot, slot `i` recycled with height `heights[i]`. */
  function ScrolledAll(ps: seq<PipePair>, dt: real, heights: seq<int>, screenWidth: int, screenHeight: int): (r: seq<PipePair>)
    requires |heights| == |ps|
    ensures |r| == |ps|
    ensures forall i :: 0 <= i < |ps| ==> r[i] == Scrolled(ps[i], dt, heights[i], screenWidth, screenHeight)
  {
    if ps == [] then []
    else
      var n := |ps| - 1;
      ScrolledAll(ps[..n], dt, heights[..n], screenWidth, screenHeight) + [Scrolled(ps[n], dt, heights[n], screenWidth, screenHeight)]
  }

  // ---------------------------------------------------------------------
  // Collision rectangles

  /** raylib's `CheckCollisionRecs`, the strict axis-aligned overlap test. */
  predicate CheckCollisionRecs(a: Rectangle, b: Rectangle)
  {
    a.x < b.x + b.width && a.x + a.width > b.x && a.y < b.y + b.height && a.y + a.height > b.y
  }

  /** The bird's hitbox: its sprite shrunk by 10 in each dimension. */
  function BirdRect(birdPos: Vector2): Rectangle
  {
    Rectangle(birdPos.x, birdPos.y, BirdSize.x - 10.0, BirdSize.y - 10.0)
  }

  function PipeRect(pipe: Pipe): Rectangle
  {
    Rectangle(pipe.position.x, pipe.position.y, pipe.dimensions.x, pipe.dimensions.y)
  }

  /** The scoring zone: the lower pipe's column, from the upper pipe's height
      down to the lower pipe's top. */
  function PortalRect(p: PipePair): Rectangle
  {
    Rectangle(p.lowerPipe.position.x, p.upperPipe.dimensions.y, p.lowerPipe.dimensions.x,
              p.lowerPipe.position.y - p.upperPipe.dimensions.y)
  }

  /** For an aligned pair whose upper pipe hangs from the top, the portal is
      the lower pipe's column from the bottom of the upper pipe's rectangle
      to the top of the lower pipe's; the bird's hitbox is 10 by 10 at its
      position. */
  lemma PortalBetweenPipes(p: PipePair, birdPos: Vector2)
    requires Aligned(p) && p.upperPipe.position.y == 0.0
    ensures var r := PortalRect(p);
      var u, l := PipeRect(p.upperPipe), PipeRect(p.lowerPipe);
      r.x == u.x == l.x && r.width == l.width &&
      r.y == u.y + u.height && r.y + r.height == l.y
    ensures BirdRect(birdPos) == Rectangle(birdPos.x, birdPos.y, 10.0, 10.0)
  {
  }

  predicate HitsUpper(birdPos: Vector2, p: PipePair)
  {
    CheckCollisionRecs(BirdRect(birdPos), PipeRect(p.upperPipe))
  }

  predicate HitsLower(birdPos: Vector2, p: PipePair)
  {
    CheckCollisionRecs(BirdRect(birdPos), PipeRect(p.lowerPipe))
  }

  predicate HitsPipe(birdPos: Vector2, p: PipePair)
  {
    HitsUpper(birdPos, p) || HitsLower(birdPos, p)
  }

  /** The bird is in the portal of a pair that has not yet awarded its point. */
  predicate Scores(birdPos: Vector2, p: PipePair)
  {
    CheckCollisionRecs(BirdRect(birdPos), PortalRect(p)) && !p.pointsCollected
  }

  // ---------------------------------------------------------------------
  // Scoring and sounds

  /** The milestone sound for a new score, tested in the order 100, 50, 10
      with the first match winning. */
  function Milestone(points: int): (m: seq<Sound>)
    ensures |m| <= 1
  {
    if points % 100 == 0 then [Combo100Sound]
    else if points % 50 == 0 then [Combo50Sound]
    else if points % 10 == 0 then [Combo10Sound]
    else []
  }

  /** The milestone rule as a priority table, highest threshold first. */
  const MilestoneTable: seq<(int, Sound)> := [(100, Combo100Sound), (50, Combo50Sound), (10, Combo10Sound)]

  /** The sound of the first row of `table` whose threshold divides `points`. */
  function FirstMatch(table: seq<(int, Sound)>, points: int): seq<Sound>
  {
    if table == [] then []
    else if table[0].0 != 0 && points % table[0].0 == 0 then [table[0].1]
    else FirstMatch(table[1..], points)
  }

  /** The chain of modulus tests is the first-match lookup in the table. */
  lemma MilestoneIsFirstMatch(points: int)
    ensures Milestone(points) == FirstMatch(MilestoneTable, points)
  {
    var t1, t2, t3 := MilestoneTable[1..], MilestoneTable[2..], MilestoneTable[3..];
    assert t1 == [(50, Combo50Sound), (10, Combo10Sound)] && t1[1..] == t2;
    assert t2 == [(10, Combo10Sound)] && t2[1..] == t3 && t3 == [];
    assert FirstMatch(t3, points) == [];
    assert FirstMatch(t2, points) == if points % 10 == 0 then [Combo10Sound] else [];
    assert FirstMatch(t1, points) == if points % 50 == 0 then [Combo50Sound] else FirstMatch(t2, points);
  }

  /** Exactly one of the four outcomes holds for any score: the hundreds
      sound, else the fifties, else the tens, else silence. */
  lemma MilestoneChoice(points: int)
    ensures Milestone(points) == [Combo100Sound] <==> points % 100 == 0
    ensures Milestone(points) == [Combo50Sound] <==> points % 50 == 0 && points % 100 != 0
    ensures Milestone(points) == [Combo10Sound] <==> points % 10 == 0 && points % 50 != 0
    ensures Milestone(points) == [] <==> points % 10 != 0
  {
    if points % 100 == 0 {
      var q := points / 100;
      DevUtils.DivModUnique(points, 50, 2 * q, 0);
      DevUtils.DivModUnique(points, 10, 10 * q, 0);
    } else if points % 50 == 0 {
      DevUtils.DivModUnique(points, 10, 5 * (points / 50), 0);
    }
  }

  /** The sounds one `CheckForCollisions` call on pair `p` plays, `points`
      being the score before it: a death sound per pipe hit, then on scoring
      the point sound and the milestone sound of the raised score. */
  function CollisionSounds(birdPos: Vector2, p: PipePair, points: int): seq<Sound>
  {
    HitSounds(birdPos, p) + (if Scores(birdPos, p) then [PointSound] + Milestone(points + 1) else [])
  }

  /** A death sound for each pipe of `p` the bird overlaps, upper first. */
  function HitSounds(birdPos: Vector2, p: PipePair): seq<Sound>
  {
    (if HitsUpper(birdPos, p) then [DeathSound] else []) +
    (if HitsLower(birdPos, p) then [DeathSound] else [])
  }

  /** The pair after `CheckForCollisions`: its flag raised if it scored. */
  function Marked(birdPos: Vector2, p: PipePair): (q: PipePair)
    ensures q.pointsCollected == (p.pointsCollected || Scores(birdPos, p))
    ensures q.(pointsCollected := p.pointsCollected) == p
  {
    if Scores(birdPos, p) then p.(pointsCollected := true) else p
  }

  /** How many of the first `n` pairs of `ps` score, checked one after
      another. */
  function SweepPoints(birdPos: Vector2, ps: seq<PipePair>, n: nat): (k: nat)
    requires n <= |ps|
    ensures k <= n
  {
    if n == 0 then 0
    else SweepPoints(birdPos, ps, n - 1) + (if Scores(birdPos, ps[n - 1]) then 1 else 0)
  }

  /** The sound log after checking the first `n` pairs of `ps` one after
      another, starting from `log` with the score at `points`. */
  function SweepLog(log: seq<Sound>, birdPos: Vector2, ps: seq<PipePair>, n: nat, points: int): seq<Sound>
    requires n <= |ps|
  {
    if n == 0 then log
    else SweepLog(log, birdPos, ps, n - 1, points) +
         CollisionSounds(birdPos, ps[n - 1], points + SweepPoints(birdPos, ps, n - 1))
  }

  /** Checking pipes only appends to the log: what was played stays played. */
  lemma {:induction false} SweepLogExtends(log: seq<Sound>, birdPos: Vector2, ps: seq<PipePair>, n: nat, points: int)
    requires n <= |ps|
    ensures |log| <= |SweepLog(log, birdPos, ps, n, points)|
    ensures SweepLog(log, birdPos, ps, n, points)[..|log|] == log
  {
    if n != 0 {
      var init := SweepLog(log, birdPos, ps, n - 1, points);
      SweepLogExtends(log, birdPos, ps, n - 1, points);
      var last := CollisionSounds(birdPos, ps[n - 1], points + SweepPoints(birdPos, ps, n - 1));
      assert (init + last)[..|log|] == init[..|log|];
    }
  }

  /** Checking pair `n` extends the sweep of the first `n` pairs by that
      pair's point, sounds and hit; `before` and `score` are the log and the
      score the first `n` checks leave. */
  lemma SweepStep(log: seq<Sound>, birdPos: Vector2, ps: seq<PipePair>, n: nat, points: int,
                  before: seq<Sound>, score: int)
    requires n < |ps|
    requires before == SweepLog(log, birdPos, ps, n, points) && score == points + SweepPoints(birdPos, ps, n)
    ensures score + (if Scores(birdPos, ps[n]) then 1 else 0) == points + SweepPoints(birdPos, ps, n + 1)
    ensures before + CollisionSounds(birdPos, ps[n], score) == SweepLog(log, birdPos, ps, n + 1, points)
    ensures AnyHit(birdPos, ps, n + 1) == (AnyHit(birdPos, ps, n) || HitsPipe(birdPos, ps[n]))
  {
  }

  /** Every pair of `ps` after its check, in slot order. */
  function MarkAll(birdPos: Vector2, ps: seq<PipePair>): (r: seq<PipePair>)
    ensures |r| == |ps|
    ensures forall i :: 0 <= i < |ps| ==> r[i] == Marked(birdPos, ps[i])
  {
    if ps == [] then [] else MarkAll(birdPos, ps[..|ps| - 1]) + [Marked(birdPos, ps[|ps| - 1])]
  }

  /** A marked pair can score no more from where it was checked, and a pair
      that scored there can score no more from anywhere. */
  lemma MarkedScoresNoMore(birdPos: Vector2, p: PipePair)
    ensures !Scores(birdPos, Marked(birdPos, p))
    ensures Scores(birdPos, p) ==> forall b :: !Scores(b, Marked(birdPos, p))
  {
  }

  /** Each pair awards its point at most once: checking the pairs again, with
      the flags the first check left, from the same bird position, scores
      nothing. */
  lemma {:induction false} SweepScoresOnce(birdPos: Vector2, ps: seq<PipePair>, n: nat)
    requires n <= |ps|
    ensures SweepPoints(birdPos, MarkAll(birdPos, ps), n) == 0
  {
    if n != 0 {
      SweepScoresOnce(birdPos, ps, n - 1);
      MarkedScoresNoMore(birdPos, ps[n - 1]);
    }
  }

  /** How often `s` occurs in `log`. */
  function Occurrences(log: seq<Sound>, s: Sound): (k: nat)
    ensures k <= |log|
  {
    if log == [] then 0 else Occurrences(log[..|log| - 1], s) + (if log[|log| - 1] == s then 1 else 0)
  }

  /** Occurrences in two logs played one after the other add up. */
  lemma {:induction false} OccurrencesConcat(a: seq<Sound>, b: seq<Sound>, s: Sound)
    ensures Occurrences(a + b, s) == Occurrences(a, s) + Occurrences(b, s)
  {
    if b == [] {
      assert a + b == a;
    } else {
      var b' := b[..|b| - 1];
      assert (a + b)[..|a + b| - 1] == a + b';
      OccurrencesConcat(a, b', s);
    }
  }

  /** A milestone sound is neither a point nor a death sound. */
  lemma MilestoneOccurrences(points: int)
    ensures Occurrences(Milestone(points), PointSound) == 0
    ensures Occurrences(Milestone(points), DeathSound) == 0
  {
    var m := Milestone(points);
    if m != [] {
      assert m[..0] == [];
    }
  }

  /** The sounds of one check, split into its hit and scoring parts. */
  lemma CollisionOccurrences(birdPos: Vector2, p: PipePair, points: int, s: Sound)
    ensures Occurrences(CollisionSounds(birdPos, p, points), s) ==
      Occurrences(if HitsUpper(birdPos, p) then [DeathSound] else [], s) +
      Occurrences(if HitsLower(birdPos, p) then [DeathSound] else [], s) +
      (if Scores(birdPos, p) then Occurrences([PointSound], s) + Occurrences(Milestone(points + 1), s) else 0)
  {
    var h := HitSounds(birdPos, p);
    var m := if Scores(birdPos, p) then [PointSound] + Milestone(points + 1) else [];
    OccurrencesConcat(h, m, s);
    OccurrencesConcat(if HitsUpper(birdPos, p) then [DeathSound] else [], if HitsLower(birdPos, p) then [DeathSound] else [], s);
    OccurrencesConcat([PointSound], Milestone(points + 1), s);
  }

  /** One check logs a point sound exactly when the pair scores. */
  lemma CollisionPointSound(birdPos: Vector2, p: PipePair, points: int)
    ensures Occurrences(CollisionSounds(birdPos, p, points), PointSound) == if Scores(birdPos, p) then 1 else 0
  {
    CollisionOccurrences(birdPos, p, points, PointSound);
    MilestoneOccurrences(points + 1);
    assert Occurrences([PointSound], PointSound) == 1 by { assert [PointSound][..0] == []; }
    assert Occurrences([DeathSound], PointSound) == 0 by { assert [DeathSound][..0] == []; }
  }

  /** Checking one more pair adds one point sound exactly when it scores. */
  lemma SweepPointStep(log: seq<Sound>, birdPos: Vector2, ps: seq<PipePair>, n: nat, points: int)
    requires n < |ps|
    ensures Occurrences(SweepLog(log, birdPos, ps, n + 1, points), PointSound) ==
      Occurrences(SweepLog(log, birdPos, ps, n, points), PointSound) + (if Scores(birdPos, ps[n]) then 1 else 0)
  {
    var init := SweepLog(log, birdPos, ps, n, points);
    var score := points + SweepPoints(birdPos, ps, n);
    SweepStep(log, birdPos, ps, n, points, init, score);
    OccurrencesConcat(init, CollisionSounds(birdPos, ps[n], score), PointSound);
    CollisionPointSound(birdPos, ps[n], score);
  }

  /** Every scoring event logs exactly one point sound. */
  lemma {:induction false} SweepPointSounds(log: seq<Sound>, birdPos: Vector2, ps: seq<PipePair>, n: nat, points: int)
    requires n <= |ps|
    ensures Occurrences(SweepLog(log, birdPos, ps, n, points), PointSound) == Occurrences(log, PointSound) + SweepPoints(birdPos, ps, n)
  {
    if n != 0 {
      SweepPointSounds(log, birdPos, ps, n - 1, points);
      SweepPointStep(log, birdPos, ps, n - 1, points);
    }
  }

  /** How many pipe overlaps the first `n` pairs of `ps` hold: each pipe a
      bird overlaps counts once, so a pair can count twice. */
  function HitCount(birdPos: Vector2, ps: seq<PipePair>, n: nat): nat
    requires n <= |ps|
  {
    if n == 0 then 0
    else HitCount(birdPos, ps, n - 1) +
         (if HitsUpper(birdPos, ps[n - 1]) then 1 else 0) +
         (if HitsLower(birdPos, ps[n - 1]) then 1 else 0)
  }

  /** Some pair among the first `n` of `ps` has a pipe the bird overlaps. */
  predicate AnyHit(birdPos: Vector2, ps: seq<PipePair>, n: nat)
    requires n <= |ps|
  {
    n != 0 && (AnyHit(birdPos, ps, n - 1) || HitsPipe(birdPos, ps[n - 1]))
  }

  /** `AnyHit` is the existential it abbreviates. */
  lemma {:induction false} AnyHitIff(birdPos: Vector2, ps: seq<PipePair>, n: nat)
    requires n <= |ps|
    ensures AnyHit(birdPos, ps, n) <==> exists k :: 0 <= k < n && HitsPipe(birdPos, ps[k])
  {
    if n != 0 {
      AnyHitIff(birdPos, ps, n - 1);
    }
  }

  /** One check logs a death sound per pipe of the pair the bird overlaps. */
  lemma CollisionDeathSounds(birdPos: Vector2, p: PipePair, points: int)
    ensures Occurrences(CollisionSounds(birdPos, p, points), DeathSound) ==
      (if HitsUpper(birdPos, p) then 1 else 0) + (if HitsLower(birdPos, p) then 1 else 0)
  {
    CollisionOccurrences(birdPos, p, points, DeathSound);
    MilestoneOccurrences(points + 1);
    assert Occurrences([PointSound], DeathSound) == 0 by { assert [PointSound][..0] == []; }
    assert Occurrences([DeathSound], DeathSound) == 1 by { assert [DeathSound][..0] == []; }
  }

  /** Checking one more pair adds one death sound per pipe of it overlapped. */
  lemma SweepDeathStep(log: seq<Sound>, birdPos: Vector2, ps: seq<PipePair>, n: nat, points: int)
    requires n < |ps|
    ensures Occurrences(SweepLog(log, birdPos, ps, n + 1, points), DeathSound) ==
      Occurrences(SweepLog(log, birdPos, ps, n, points), DeathSound) +
      (if HitsUpper(birdPos, ps[n]) then 1 else 0) + (if HitsLower(birdPos, ps[n]) then 1 else 0)
  {
    var init := SweepLog(log, birdPos, ps, n, points);
    var score := points + SweepPoints(birdPos, ps, n);
    SweepStep(log, birdPos, ps, n, points, init, score);
    OccurrencesConcat(init, CollisionSounds(birdPos, ps[n], score), DeathSound);
    CollisionDeathSounds(birdPos, ps[n], score);
  }

  /** Each overlapped pipe logs one death sound and nothing else does, since
      the death trigger has no guard against a bird that is already dead. */
  lemma {:induction false} SweepDeathSounds(log: seq<Sound>, birdPos: Vector2, ps: seq<PipePair>, n: nat, points: int)
    requires n <= |ps|
    ensures Occurrences(SweepLog(log, birdPos, ps, n, points), DeathSound) == Occurrences(log, DeathSound) + HitCount(birdPos, ps, n)
  {
    if n != 0 {
      var hits := (if HitsUpper(birdPos, ps[n - 1]) then 1 else 0) + (if HitsLower(birdPos, ps[n - 1]) then 1 else 0);
      SweepDeathSounds(log, birdPos, ps, n - 1, points);
      SweepDeathStep(log, birdPos, ps, n - 1, points);
      assert HitCount(birdPos, ps, n) == HitCount(birdPos, ps, n - 1) + hits;
    }
  }

  /** Some pipe is overlapped exactly when the overlap count is positive. */
  lemma {:induction false} HitCountPositive(birdPos: Vector2, ps: seq<PipePair>, n: nat)
    requires n <= |ps|
    ensures HitCount(birdPos, ps, n) > 0 <==> AnyHit(birdPos, ps, n)
  {
    if n != 0 {
      HitCountPositive(birdPos, ps, n - 1);
    }
  }

  // ---------------------------------------------------------------------
  // Layout of generated pairs

  /** A generated pair: both pipes at the right edge, the upper from the top
      with the random height, the portal exactly `PipePortalGap` tall below
      it, the lower pipe reaching 200 below the bottom of the screen (the
      quirk of adding the gap), both tagged UPPER, no point awarded yet. */
  lemma GeneratedPairLayout(r: int, screenWidth: int, screenHeight: int)
    ensures var p := GeneratePipePair(r, screenWidth, screenHeight);
      Aligned(p) && p.upperPipe.position == Vector2(screenWidth as real, 0.0) &&
      p.upperPipe.dimensions == Vector2(PipeWidth as real, r as real) &&
      p.lowerPipe.position == Vector2(screenWidth as real, (r + PipePortalGap) as real) &&
      p.lowerPipe.dimensions == Vector2(PipeWidth as real, (screenHeight - r + PipePortalGap) as real) &&
      p.lowerPipe.position.y + p.lowerPipe.dimensions.y == (screenHeight + 2 * PipePortalGap) as real &&
      p.upperPipe.direction == Upper && p.lowerPipe.direction == Upper &&
      PortalRect(p) == Rectangle(screenWidth as real, r as real, PipeWidth as real, PipePortalGap as real) &&
      !p.pointsCollected
  {
  }

  /** The upper pipe, the portal and the lower pipe of a pair as generated
      (and at any x it is later moved to) never overlap one another. */
  lemma GeneratedRectsDisjoint(r: int, screenWidth: int, screenHeight: int, x: real)
    ensures var p := AtX(GeneratePipePair(r, screenWidth, screenHeight), x);
      !CheckCollisionRecs(PipeRect(p.upperPipe), PortalRect(p)) &&
      !CheckCollisionRecs(PortalRect(p), PipeRect(p.lowerPipe)) &&
      !CheckCollisionRecs(PipeRect(p.upperPipe), PipeRect(p.lowerPipe))
  {
  }

  /** For a generated pair at `x`, the bird scores exactly when its 10x10
      hitbox overlaps the column [x, x+30) and lies partly in the gap rows
      (r, r+100). */
  lemma PortalHitIff(birdPos: Vector2, r: int, screenWidth: int, screenHeight: int, x: real)
    ensures var p := AtX(GeneratePipePair(r, screenWidth, screenHeight), x);
      Scores(birdPos, p) <==>
        (birdPos.x < x + PipeWidth as real && birdPos.x + 10.0 > x &&
         birdPos.y < (r + PipePortalGap) as real && birdPos.y + 10.0 > r as real)
  {
  }

  /** `GetRandomValue(20, GetScreenHeight() * 0.6)`: the double bound is
      narrowed to an `int` by truncation. */
  function MaxRandomPipeHeight(screenHeight: int): int
  {
    TruncateToInt(screenHeight as real * 0.6)
  }

  /** For heights the random source can return and a screen at least 250
      tall, the whole portal lies on the screen, below a visible upper pipe. */
  lemma PortalOnScreen(r: int, screenHeight: int)
    requires 250 <= screenHeight && 20 <= r <= MaxRandomPipeHeight(screenHeight)
    ensures 0 < r && r + PipePortalGap <= screenHeight
  {
  }

  /** The five pairs of the first generation: slot `k` at `PipeGap * k` right
      of the screen edge, with random height `heights[k]`. */
  function InitialPipes(heights: seq<int>, screenWidth: int, screenHeight: int): (r: seq<PipePair>)
    requires |heights| == 5
    ensures |r| == 5
    ensures forall k :: 0 <= k < 5 ==>
      Aligned(r[k]) && !r[k].pointsCollected && r[k].upperPipe.position.x == (screenWidth + PipeGap * k) as real &&
      r[k].upperPipe.dimensions.y == heights[k] as real
  {
    seq(5, k requires 0 <= k < 5 =>
      AtX(GeneratePipePair(heights[k], screenWidth, screenHeight), (screenWidth + PipeGap * k) as real))
  }

  /** The first generation is spaced `PipeGap` apart, so ordered strictly left
      to right by slot; every pair is aligned and has its point available. */
  lemma InitialPipesOrdered(heights: seq<int>, screenWidth: int, screenHeight: int)
    requires |heights| == 5
    ensures var ps := InitialPipes(heights, screenWidth, screenHeight);
      (forall k :: 0 <= k < 5 ==> Aligned(ps[k]) && !ps[k].pointsCollected) &&
      (forall j, k :: 0 <= j < k < 5 ==> ps[j].upperPipe.position.x + (PipeGap * (k - j)) as real == ps[k].upperPipe.position.x) &&
      (forall j, k :: 0 <= j < k < 5 ==> ps[j].upperPipe.position.x < ps[k].upperPipe.position.x)
  {
  }

  // ---------------------------------------------------------------------
  // Scrolling

  /** A pair that stays in bounds only has its two x fields changed, both to
      the old upper x less `ScrollingSpeed * dt`. */
  lemma ScrolledInBounds(p: PipePair, dt: real, r: int, screenWidth: int, screenHeight: int)
    requires !OutOfBounds(p, p.upperPipe.position.x - ScrollingSpeed * dt)
    ensures var q := Scrolled(p, dt, r, screenWidth, screenHeight);
      q.upperPipe.position.x == p.upperPipe.position.x - ScrollingSpeed * dt &&
      q.lowerPipe.position.x == q.upperPipe.position.x &&
      AtX(q, p.upperPipe.position.x) == AtX(p, p.upperPipe.position.x) &&
      q.pointsCollected == p.pointsCollected
  {
  }

  /** A pair whose right edge passes the left screen edge is replaced by a
      fresh pair at the recycling offset, whose point is again available. */
  lemma ScrolledRecycles(p: PipePair, dt: real, r: int, screenWidth: int, screenHeight: int)
    requires OutOfBounds(p, p.upperPipe.position.x - ScrollingSpeed * dt)
    ensures var q := Scrolled(p, dt, r, screenWidth, screenHeight);
      q == AtX(GeneratePipePair(r, screenWidth, screenHeight), (screenWidth + PipeGap - PipeWidth) as real) &&
      Aligned(q) && !q.pointsCollected
  {
  }

  // ---------------------------------------------------------------------
  // The bird

  /** The bird's state after one alive frame. */
  datatype BirdUpdate = BirdUpdate(posY: real, velocityY: real, angle: int, spacePressed: bool, flapped: bool)

  /** A C++ conversion of a floating value to `int`: truncation toward zero. */
  function TruncateToInt(x: real): (n: int)
    ensures x >= 0.0 ==> 0 <= n && n as real <= x < n as real + 1.0
    ensures x < 0.0 ==> n <= 0 && n as real - 1.0 < x <= n as real
  {
    if x >= 0.0 then x.Floor else -((-x).Floor)
  }

  /** `bird_angle = clamp(bird_angle, -45, 85)`: clamp as a double, stored back
      into the `int`. */
  function ClampAngle(angle: int): (a: int)
    ensures MaxNegativeBirdAngle <= a <= MaxPositiveBirdAngle
    ensures MaxNegativeBirdAngle <= angle <= MaxPositiveBirdAngle ==> a == angle
  {
    TruncateToInt(DevUtils.Clamp(angle as real, MaxNegativeBirdAngle as real, MaxPositiveBirdAngle as real))
  }

  /** The clamp and input part of an alive frame, from the height `y1`,
      velocity `v1` and angle `a1` that gravity, integration and the angle
      increase produced: the three clamps; a flap on a space press that is
      not already latched (velocity lowered by the flap force after the
      clamp, angle snapped nose-up); the latch cleared on release; the bounce
      at the roof. */
  function StepBird(y1: real, v1: real, a1: int, spaceDown: bool, spaceReleased: bool, spacePressed: bool): (b: BirdUpdate)
    ensures MaxNegativeBirdAngle <= b.angle <= MaxPositiveBirdAngle
    ensures 0.0 <= b.posY <= GroundClamp
    ensures MaxPositiveBirdVelocity - FlapForce <= b.velocityY <= MaxNegativeBirdVelocity
    ensures b.flapped <==> spaceDown && !spacePressed
    ensures !b.flapped || b.posY == 0.0 ==> MaxPositiveBirdVelocity <= b.velocityY <= MaxNegativeBirdVelocity
  {
    Steer(DevUtils.Clamp(y1, 0.0, GroundClamp), DevUtils.Clamp(v1, MaxPositiveBirdVelocity, MaxNegativeBirdVelocity),
          ClampAngle(a1), spaceDown, spaceReleased, spacePressed)
  }

  /** The input part of an alive frame, from the clamped height `y2`,
      velocity `v2` and angle `a2`: the flap, the latch and the roof bounce. */
  function Steer(y2: real, v2: real, a2: int, spaceDown: bool, spaceReleased: bool, spacePressed: bool): (b: BirdUpdate)
    ensures b.posY == y2
    ensures b.flapped <==> spaceDown && !spacePressed
    ensures b.spacePressed == (!spaceReleased && (spacePressed || spaceDown))
    ensures b.angle == (if b.flapped then MaxNegativeBirdAngle else a2)
    ensures b.velocityY == (if y2 == 0.0 then MaxNegativeBirdVelocity else if b.flapped then v2 - FlapForce else v2)
  {
    var flap := spaceDown && !spacePressed;
    var v3 := if flap then v2 - FlapForce else v2;
    var a3 := if flap then MaxNegativeBirdAngle else a2;
    var pressed := if flap then true else spacePressed;
    var pressed2 := if spaceReleased then false else pressed;
    var v4 := if y2 == 0.0 then MaxNegativeBirdVelocity else v3;
    BirdUpdate(y2, v4, a3, pressed2, flap)
  }

  /** A flap snaps the angle nose-up and, away from the roof, leaves the
      velocity `FlapForce` below the clamped velocity, so outside the clamp
      range until the next frame's clamp. */
  lemma FlapAfterClamp(y1: real, v1: real, a1: int, spaceReleased: bool)
    ensures var b := StepBird(y1, v1, a1, true, spaceReleased, false);
      b.flapped && b.angle == MaxNegativeBirdAngle &&
      (b.posY != 0.0 ==>
        b.velocityY == DevUtils.Clamp(v1, MaxPositiveBirdVelocity, MaxNegativeBirdVelocity) - FlapForce &&
        b.velocityY < MaxPositiveBirdVelocity)
  {
  }

  /** The space latch: set by a flap, held while space is held, cleared by a
      release; a held space never flaps twice. */
  lemma SpaceLatch(y1: real, v1: real, a1: int, spaceDown: bool, spaceReleased: bool, spacePressed: bool)
    ensures var b := StepBird(y1, v1, a1, spaceDown, spaceReleased, spacePressed);
      b.spacePressed == (!spaceReleased && (spacePressed || spaceDown)) &&
      (spacePressed ==> !b.flapped)
  {
  }

  /** Touching the roof sets the velocity to its downward maximum, overriding
      a flap of the same frame. */
  lemma RoofBounce(y1: real, v1: real, a1: int, spaceDown: bool, spaceReleased: bool, spacePressed: bool)
    ensures var b := StepBird(y1, v1, a1, spaceDown, spaceReleased, spacePressed);
      b.posY == 0.0 ==> b.velocityY == MaxNegativeBirdVelocity
  {
  }

  /** Without a flap the angle is the increased angle clamped to its range,
      and a height already inside its range is kept. */
  lemma AngleWithoutFlap(y1: real, v1: real, a1: int, spaceDown: bool, spaceReleased: bool, spacePressed: bool)
    requires !(spaceDown && !spacePressed)
    ensures var b := StepBird(y1, v1, a1, spaceDown, spaceReleased, spacePressed);
      b.angle == (if a1 < MaxNegativeBirdAngle then MaxNegativeBirdAngle
                  else if a1 > MaxPositiveBirdAngle then MaxPositiveBirdAngle
                  else a1) &&
      (0.0 <= y1 <= GroundClamp ==> b.posY == y1)
  {
  }

  // ---------------------------------------------------------------------
  // Whole frames

  /** The program's globals at one instant, the pipe array as a sequence and
      the sounds played so far. */
  datatype Globals = Globals(birdPos: Vector2, birdVelocity: Vector2, birdAngle: int, points: int,
                             isAlive: bool, spacePressed: bool, generatePipes: bool,
                             currentScreen: GameScreen, pipes: seq<PipePair>, sounds: seq<Sound>)

  /** What one frame reads from raylib: the frame time, the truncated angle
      increase, the space key, the screen size, and the random height each
      slot is recycled with. */
  datatype FrameInput = FrameInput(dt: real, angleIncrement: int, spaceDown: bool, spaceReleased: bool,
                                   screenWidth: int, screenHeight: int, heights: seq<int>)

  /** The globals after the live branch of a gameplay frame: the bird steps,
      touching the ground (while alive) kills it, then every slot in turn is
      scrolled and checked. */
  function AliveNext(g: Globals, i: FrameInput): Globals
    requires |i.heights| == |g.pipes|
  {
    SweepNext(LandNext(g, i.dt, i.angleIncrement, i.spaceDown, i.spaceReleased, i.screenHeight),
              i.dt, i.heights, i.screenWidth, i.screenHeight)
  }

  /** The bird's half of a live frame: it flies (`Fly`), and a live bird
      that reaches the ground dies with a death sound. */
  function LandNext(g: Globals, dt: real, angleIncrement: int, spaceDown: bool, spaceReleased: bool,
                    screenHeight: int): Globals
  {
    var b := Fly(g.birdPos.y, g.birdVelocity.y, g.birdAngle, g.spacePressed, dt, angleIncrement,
                 spaceDown, spaceReleased);
    var grounded := b.posY == screenHeight as real && g.isAlive;
    g.(birdPos := g.birdPos.(y := b.posY), birdVelocity := g.birdVelocity.(y := b.velocityY),
       birdAngle := b.angle, spacePressed := b.spacePressed, isAlive := g.isAlive && !grounded,
       sounds := LiveLog(g.sounds, b.flapped, grounded))
  }

  /** The obstacles' half of a live frame: every slot scrolls, is checked
      against the bird and is marked (`SweepLog`, `MarkAll`). */
  function SweepNext(g: Globals, dt: real, heights: seq<int>, screenWidth: int, screenHeight: int): Globals
    requires |heights| == |g.pipes|
  {
    var scrolled := ScrolledAll(g.pipes, dt, heights, screenWidth, screenHeight);
    g.(points := g.points + SweepPoints(g.birdPos, scrolled, |scrolled|),
       isAlive := g.isAlive && !AnyHit(g.birdPos, scrolled, |scrolled|),
       pipes := MarkAll(g.birdPos, scrolled),
       sounds := SweepLog(g.sounds, g.birdPos, scrolled, |scrolled|, g.points))
  }

  /** The bird's half of a live frame, from height `y0`, velocity `vy0`,
      angle `a0` and latch `pressed0`: gravity raises the velocity by
      `BirdGravity * dt`, the height moves by the new velocity times `dt`, the
      angle grows by the increment, then `StepBird`. */
  function Fly(y0: real, vy0: real, a0: int, pressed0: bool, dt: real, angleIncrement: int,
               spaceDown: bool, spaceReleased: bool): BirdUpdate
  {
    var v1 := vy0 + BirdGravity * dt;
    StepBird(y0 + v1 * dt, v1, a0 + angleIncrement, spaceDown, spaceReleased, pressed0)
  }

  /** The log after the bird's half of a live frame: the flap sound, then
      the ground death sound, each if it happened. */
  function LiveLog(log0: seq<Sound>, flapped: bool, grounded: bool): seq<Sound>
  {
    log0 + (if flapped then [FlapSound] else []) + (if grounded then [DeathSound] else [])
  }

  /** The globals after `ResetGameLoop`. */
  function ResetState(g: Globals): Globals
  {
    g.(birdPos := Vector2(ScreenProportions.x / 2.0, ScreenProportions.y / 2.0),
       birdVelocity := Vector2(0.0, 0.0), points := 0, pipes := seq(5, _ => EmptyPair),
       isAlive := true, generatePipes := true)
  }

  /** The globals after the first generation, when it is due. */
  function GenerateIfDue(g: Globals, initialHeights: seq<int>, screenWidth: int, screenHeight: int): Globals
    requires |initialHeights| == 5
  {
    if g.generatePipes then g.(pipes := InitialPipes(initialHeights, screenWidth, screenHeight), generatePipes := false)
    else g
  }

  /** The globals after a gameplay frame: the pipes are generated if due, then
      a live bird takes a frame and a dead one is reset by space. */
  function PlayNext(g: Globals, initialHeights: seq<int>, i: FrameInput): Globals
    requires |initialHeights| == 5 && |i.heights| == 5 && |g.pipes| == 5
  {
    var g1 := GenerateIfDue(g, initialHeights, i.screenWidth, i.screenHeight);
    if g1.isAlive then AliveNext(g1, i)
    else if i.spaceDown then ResetState(g1)
    else g1
  }

  /** The globals after one pass of the main loop, drawing aside. */
  function FrameNext(g: Globals, initialHeights: seq<int>, i: FrameInput): Globals
    requires |initialHeights| == 5 && |i.heights| == 5 && |g.pipes| == 5
  {
    if g.currentScreen == Title then g.(currentScreen := if i.spaceDown then Gameplay else Title)
    else PlayNext(g, initialHeights, i)
  }

  /** The flap and ground sounds add no point sound, one death sound for a
      landing, and only append to the log. */
  lemma LiveLogCounts(log0: seq<Sound>, flapped: bool, grounded: bool)
    ensures var log := LiveLog(log0, flapped, grounded);
      Occurrences(log, PointSound) == Occurrences(log0, PointSound) &&
      Occurrences(log, DeathSound) == Occurrences(log0, DeathSound) + (if grounded then 1 else 0) &&
      |log0| <= |log| && log[..|log0|] == log0
  {
    var flap: seq<Sound> := if flapped then [FlapSound] else [];
    var death: seq<Sound> := if grounded then [DeathSound] else [];
    OccurrencesConcat(log0, flap, PointSound);
    OccurrencesConcat(log0 + flap, death, PointSound);
    OccurrencesConcat(log0, flap, DeathSound);
    OccurrencesConcat(log0 + flap, death, DeathSound);
    assert flapped ==> flap[..0] == [];
    assert grounded ==> death[..0] == [];
    assert (log0 + flap + death)[..|log0|] == log0;
  }

  /** The sounds of a live frame: the flap and ground sounds, if any, then
      the sweep. Its point sounds are the sweep's points; its death sounds
      are the ground death and the overlapped pipes; it extends `log0`. */
  lemma LiveFrameSounds(log0: seq<Sound>, flapped: bool, grounded: bool, bird: Vector2,
                        scrolled: seq<PipePair>, points: int)
    ensures var s := SweepLog(LiveLog(log0, flapped, grounded), bird, scrolled, |scrolled|, points);
      Occurrences(s, PointSound) == Occurrences(log0, PointSound) + SweepPoints(bird, scrolled, |scrolled|) &&
      Occurrences(s, DeathSound) ==
        Occurrences(log0, DeathSound) + (if grounded then 1 else 0) + HitCount(bird, scrolled, |scrolled|) &&
      |log0| <= |s| && s[..|log0|] == log0
  {
    var log := LiveLog(log0, flapped, grounded);
    LiveLogCounts(log0, flapped, grounded);
    SweepPointSounds(log, bird, scrolled, |scrolled|, points);
    SweepDeathSounds(log, bird, scrolled, |scrolled|, points);
    SweepLogExtends(log, bird, scrolled, |scrolled|, points);
    var s := SweepLog(log, bird, scrolled, |scrolled|, points);
    assert s[..|log0|] == s[..|log|][..|log0|];
  }

  /** A live frame raises the score by at most one point per slot, logs one
      point sound per point, and only appends to the log; the screen and the
      generation flag are untouched. */
  lemma AliveNextScore(g: Globals, i: FrameInput)
    requires |g.pipes| == 5 && |i.heights| == 5
    ensures var h := AliveNext(g, i);
      g.points <= h.points <= g.points + 5 &&
      Occurrences(h.sounds, PointSound) == Occurrences(g.sounds, PointSound) + (h.points - g.points) &&
      |g.sounds| <= |h.sounds| && h.sounds[..|g.sounds|] == g.sounds &&
      h.currentScreen == g.currentScreen && h.generatePipes == g.generatePipes
  {
    var b := Fly(g.birdPos.y, g.birdVelocity.y, g.birdAngle, g.spacePressed, i.dt, i.angleIncrement,
                 i.spaceDown, i.spaceReleased);
    var g1 := LandNext(g, i.dt, i.angleIncrement, i.spaceDown, i.spaceReleased, i.screenHeight);
    var scrolled := ScrolledAll(g.pipes, i.dt, i.heights, i.screenWidth, i.screenHeight);
    LiveFrameSounds(g.sounds, b.flapped, b.posY == i.screenHeight as real && g.isAlive, g1.birdPos, scrolled, g.points);
  }

  /** A live frame kills the bird exactly when it touches the ground or a
      pipe, and logs one death sound for the ground and one per overlapped
      pipe. */
  lemma AliveNextDeath(g: Globals, i: FrameInput)
    requires |g.pipes| == 5 && |i.heights| == 5 && g.isAlive
    ensures var h := AliveNext(g, i);
      var scrolled := ScrolledAll(g.pipes, i.dt, i.heights, i.screenWidth, i.screenHeight);
      var grounded := h.birdPos.y == i.screenHeight as real;
      (h.isAlive <==> !grounded && forall k :: 0 <= k < |scrolled| ==> !HitsPipe(h.birdPos, scrolled[k])) &&
      Occurrences(h.sounds, DeathSound) ==
        Occurrences(g.sounds, DeathSound) + (if grounded then 1 else 0) + HitCount(h.birdPos, scrolled, |scrolled|)
  {
    var b := Fly(g.birdPos.y, g.birdVelocity.y, g.birdAngle, g.spacePressed, i.dt, i.angleIncrement,
                 i.spaceDown, i.spaceReleased);
    var g1 := LandNext(g, i.dt, i.angleIncrement, i.spaceDown, i.spaceReleased, i.screenHeight);
    var scrolled := ScrolledAll(g.pipes, i.dt, i.heights, i.screenWidth, i.screenHeight);
    AnyHitIff(g1.birdPos, scrolled, |scrolled|);
    LiveFrameSounds(g.sounds, b.flapped, b.posY == i.screenHeight as real, g1.birdPos, scrolled, g.points);
  }

  /** A gameplay frame with a live bird generates any due pipes, and then is
      a live frame on them. */
  lemma PlayNextAlive(g: Globals, initialHeights: seq<int>, i: FrameInput)
    requires |initialHeights| == 5 && |i.heights| == 5 && |g.pipes| == 5 && g.isAlive
    ensures var h := PlayNext(g, initialHeights, i);
      var ps0 := if g.generatePipes then InitialPipes(initialHeights, i.screenWidth, i.screenHeight) else g.pipes;
      h == AliveNext(g.(pipes := ps0, generatePipes := false), i) &&
      !h.generatePipes && g.points <= h.points <= g.points + 5 &&
      |g.sounds| <= |h.sounds| && h.sounds[..|g.sounds|] == g.sounds
  {
    var g1 := GenerateIfDue(g, initialHeights, i.screenWidth, i.screenHeight);
    AliveNextScore(g1, i);
  }

  /** A gameplay frame with a dead bird plays no sound and keeps the angle
      and the space latch. Space resets the game; otherwise only a due
      generation changes anything. */
  lemma PlayNextDead(g: Globals, initialHeights: seq<int>, i: FrameInput)
    requires |initialHeights| == 5 && |i.heights| == 5 && |g.pipes| == 5 && !g.isAlive
    ensures var h := PlayNext(g, initialHeights, i);
      var ps0 := if g.generatePipes then InitialPipes(initialHeights, i.screenWidth, i.screenHeight) else g.pipes;
      h.sounds == g.sounds && h.birdAngle == g.birdAngle && h.spacePressed == g.spacePressed &&
      h.currentScreen == g.currentScreen &&
      (i.spaceDown ==>
        h.isAlive && h.generatePipes && h.points == 0 && h.birdPos == Vector2(400.0, 225.0) &&
        h.birdVelocity == Vector2(0.0, 0.0) && h.pipes == seq(5, _ => EmptyPair)) &&
      (!i.spaceDown ==> h == g.(pipes := ps0, generatePipes := false))
  {
  }

  /** On the title screen a frame changes only the screen, to gameplay
      exactly when space is down; gameplay never returns to the title. */
  lemma FrameScreens(g: Globals, initialHeights: seq<int>, i: FrameInput)
    requires |initialHeights| == 5 && |i.heights| == 5 && |g.pipes| == 5
    ensures var h := FrameNext(g, initialHeights, i);
      (g.currentScreen == Title ==>
        h.(currentScreen := Title) == g && (h.currentScreen == Gameplay <==> i.spaceDown)) &&
      (g.currentScreen == Gameplay ==> h.currentScreen == Gameplay && h == PlayNext(g, initialHeights, i))
  {
    if g.currentScreen == Gameplay {
      var g1 := GenerateIfDue(g, initialHeights, i.screenWidth, i.screenHeight);
      if g1.isAlive {
        AliveNextScore(g1, i);
      }
    }
  }
}
