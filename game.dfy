/**
  The game object of the script: the session counters and flags, the ball,
  the rock and droplet arrays of the current level, the fact bookkeeping and
  the random stream, with one method per function or event handler of the
  script that changes them. Each method is tied to the session transition of
  Progression it performs; the invariant Valid() is kept by every handler.
 */
module Game {
  import opened Geometry
  import opened Physics
  import opened Progression
  import opened Facts
  import opened Layout

  /** What a frame or a handler leaves scheduled for the next animation frame. */
  datatype Scheduled = Nothing | FallInFrame | LoopFrame

  /** Ground level as declared, before the first level reset. */
  const INITIAL_GROUND_Y: real := 228.0

  /** Left edge and side length of the ball's collision box. */
  function BallLeft(width: real): (r: real) { Scaled(80.0, width) }
  function BallSize(width: real): (r: real) { Scaled(45.0, width) }

  /** Some rock collides with the box at (x, y) of size w x h. */
  predicate RockHit(rocks: seq<Rock>, x: real, y: real, w: real, h: real)
  {
    exists i :: 0 <= i < |rocks| && Collides(x, y, w, h, rocks[i].x, rocks[i].y, rocks[i].w, rocks[i].h)
  }

  /** Whether the ball's box touches some rock, tested rock by rock in array
      order as the game loop does. */
  method AnyRockHit(rocks: seq<Rock>, x: real, y: real, w: real, h: real)
    returns (hit: bool)
    ensures hit <==> RockHit(rocks, x, y, w, h)
  {
    hit := false;
    for i := 0 to |rocks|
      invariant !hit
      invariant forall k :: 0 <= k < i ==>
                  !Collides(x, y, w, h, rocks[k].x, rocks[k].y, rocks[k].w, rocks[k].h)
    {
      if Collides(x, y, w, h, rocks[i].x, rocks[i].y, rocks[i].w, rocks[i].h) {
        return true;
      }
    }
  }

  /** A new array holding the elements of `s`, as the script's array
      literals built with push are. */
  method ToArray<T>(s: seq<T>) returns (a: array<T>)
    ensures fresh(a) && a[..] == s
  {
    a := new T[|s|](i requires 0 <= i < |s| => s[i]);
  }

  /** The rocks of one frame's move, with the stream bookkeeping: rock i
      moved as RockAdvanced says against the rocks as the loop sees them
      (those before it already moved), reading `tries[i]` samples from
      `starts[i]`, the reads following one another from `first` to `last`. */
  ghost predicate RockRuns(before: seq<Rock>, after: seq<Rock>, speed: real, drops: seq<Droplet>,
                           width: real, random: nat -> real, first: nat, last: nat,
                           starts: seq<nat>, anchors: seq<real>, tries: seq<nat>)
  {
    && |after| == |before| && |starts| == |before| && |anchors| == |before|
    && Consecutive(starts, tries, first, last)
    && forall i :: 0 <= i < |before| ==>
         RockAdvanced(before[i], after[i], speed, after[..i] + before[i..], i, drops, width,
                      random, starts[i], anchors[i], tries[i])
  }

  /** The rocks `before` become `after` in one frame, reading the stream
      from `first` to `last`. */
  ghost predicate RocksScrolled(before: seq<Rock>, after: seq<Rock>, speed: real, drops: seq<Droplet>,
                                width: real, random: nat -> real, first: nat, last: nat)
  {
    exists starts, anchors, tries :: RockRuns(before, after, speed, drops, width, random, first, last,
                                              starts, anchors, tries)
  }

  /** The droplets of one frame's move, with the stream bookkeeping: droplet i
      moved as DropletAdvanced says against the rocks where this frame put them
      and the droplets as the loop sees them. */
  ghost predicate DropletRuns(before: seq<Droplet>, after: seq<Droplet>, speed: real, rocks: seq<Rock>,
                              width: real, random: nat -> real, first: nat, last: nat,
                              starts: seq<nat>, tries: seq<nat>, respawned: seq<bool>)
  {
    && |after| == |before| && |starts| == |before| && |respawned| == |before|
    && Consecutive(starts, tries, first, last)
    && forall i :: 0 <= i < |before| ==>
         DropletAdvanced(before[i], after[i], speed, rocks, after[..i] + before[i..], i, width,
                         random, starts[i], tries[i], respawned[i])
  }

  /** The droplets `before` become `after` in one frame, reading the stream
      from `first` to `last`. */
  ghost predicate DropletsScrolled(before: seq<Droplet>, after: seq<Droplet>, speed: real, rocks: seq<Rock>,
                                   width: real, random: nat -> real, first: nat, last: nat)
  {
    exists starts, tries, respawned :: DropletRuns(before, after, speed, rocks, width, random, first, last,
                                                   starts, tries, respawned)
  }

  /** Writing the moved rock `obs` at index i of the scene keeps every rock
      before it described against the scene it saw, and describes rock i
      against `prev`, the scene it saw. */
  lemma RocksStepOn(before: seq<Rock>, prev: seq<Rock>, obs: Rock, i: nat, speed: real, drops: seq<Droplet>,
                    width: real, random: nat -> real, starts: seq<nat>, anchors: seq<real>, tries: seq<nat>,
                    from: nat, anchor: real, n: nat)
    requires |prev| == |before| && i < |before| && prev[i..] == before[i..]
    requires |starts| == i && |anchors| == i && |tries| == i
    requires forall k :: 0 <= k < i ==>
               RockAdvanced(before[k], prev[k], speed, prev[..k] + before[k..], k, drops, width,
                            random, starts[k], anchors[k], tries[k])
    requires RockAdvanced(before[i], obs, speed, prev, i, drops, width, random, from, anchor, n)
    ensures prev[i := obs][i + 1..] == before[i + 1..]
    ensures forall k :: 0 <= k < i + 1 ==>
              RockAdvanced(before[k], prev[i := obs][k], speed, prev[i := obs][..k] + before[k..], k, drops,
                           width, random, (starts + [from])[k], (anchors + [anchor])[k], (tries + [n])[k])
  {
    var scene := prev[i := obs];
    forall k | 0 <= k < i + 1
      ensures RockAdvanced(before[k], scene[k], speed, scene[..k] + before[k..], k, drops,
                           width, random, (starts + [from])[k], (anchors + [anchor])[k], (tries + [n])[k])
    {
      if k < i {
        assert scene[..k] == prev[..k];
      } else {
        assert scene[..i] + before[i..] == prev;
      }
    }
  }

  /** The same for a moved droplet `drop` written at index i. */
  lemma DropletsStepOn(before: seq<Droplet>, prev: seq<Droplet>, drop: Droplet, i: nat, speed: real,
                       rocks: seq<Rock>, width: real, random: nat -> real,
                       starts: seq<nat>, tries: seq<nat>, respawned: seq<bool>,
                       from: nat, n: nat, done: bool)
    requires |prev| == |before| && i < |before| && prev[i..] == before[i..]
    requires |starts| == i && |respawned| == i && |tries| == i
    requires forall k :: 0 <= k < i ==>
               DropletAdvanced(before[k], prev[k], speed, rocks, prev[..k] + before[k..], k, width,
                               random, starts[k], tries[k], respawned[k])
    requires DropletAdvanced(before[i], drop, speed, rocks, prev, i, width, random, from, n, done)
    ensures prev[i := drop][i + 1..] == before[i + 1..]
    ensures forall k :: 0 <= k < i + 1 ==>
              DropletAdvanced(before[k], prev[i := drop][k], speed, rocks, prev[i := drop][..k] + before[k..],
                              k, width, random, (starts + [from])[k], (tries + [n])[k], (respawned + [done])[k])
  {
    var scene := prev[i := drop];
    forall k | 0 <= k < i + 1
      ensures DropletAdvanced(before[k], scene[k], speed, rocks, scene[..k] + before[k..],
                              k, width, random, (starts + [from])[k], (tries + [n])[k], (respawned + [done])[k])
    {
      if k < i {
        assert scene[..k] == prev[..k];
      } else {
        assert scene[..i] + before[i..] == prev;
      }
    }
  }

  /** What the moving part of a frame leaves: the rocks, the droplets, the
      ball, and the stream position after the rocks (`mid`) and after the
      droplets (`last`). */
  datatype Frame = Frame(rocks: seq<Rock>, drops: seq<Droplet>, ball: Ball, mid: nat, last: nat)

  /** The frame `f` is the move of `rocks`, `drops` and `ball` at `speed`:
      rocks first (reading the stream from `first`), then droplets against
      the moved rocks, then one jump step of a ball in the air. */
  ghost predicate Moved(rocks: seq<Rock>, drops: seq<Droplet>, ball: Ball, speed: real, width: real,
                        ground: real, random: nat -> real, first: nat, f: Frame)
  {
    && first <= f.mid <= f.last
    && RocksScrolled(rocks, f.rocks, speed, drops, width, random, first, f.mid)
    && DropletsScrolled(drops, f.drops, speed, f.rocks, width, random, f.mid, f.last)
    && f.ball == (if ball.airborne then Step(ball, ground) else ball)
  }

  /** Where the droplet walk of a frame has got to: the session, the ball's
      height (a level-up puts the ball back on the ground), the indices
      collected so far, and whether the win or a fact card stopped it. */
  datatype Walk = Walk(session: Session, y: real, taken: set<int>, stopped: bool)

  /** What a walk over the droplets may change of the game besides the
      session's score and lives, the ball's height and the droplets' flags:
      the level, the fact card, the two arrays, the ground, the ball's speed
      and jump flag, the random cursor and the used facts. */
  datatype Snapshot = Snapshot(level: int, factCard: bool, obstacles: array<Rock>, droplets: array<Droplet>,
                               groundY: real, vy: real, jumping: bool, draws: nat, used: seq<string>)

  /** The walk, not yet stopped, meets droplet `d` uncollected and touching
      the ball's box at the ball's present height. */
  predicate Touches(w: Walk, d: Droplet, bx: real, bw: real, bh: real)
  {
    !w.stopped && !d.collected && Collides(bx, w.y, bw, bh, d.x, d.y, d.w, d.h)
  }

  /** The walk visits droplet `d` at index `i`: once stopped it does nothing;
      otherwise an uncollected droplet touching the ball's box is collected. */
  function Visit(w: Walk, d: Droplet, i: int, ground: real, bx: real, bw: real, bh: real): (v: Walk)
    ensures w.stopped ==> v == w
    ensures v.taken == if Touches(w, d, bx, bw, bh) then w.taken + {i} else w.taken
  {
    if !Touches(w, d, bx, bw, bh) then w
    else
      var c := Collect(w.session);
      Walk(c.0, if c.1 == LeveledUp then ground else w.y, w.taken + {i}, c.1 == Won || c.1 == FactShown)
  }

  /** The droplet walk over the first `n` droplets of `ds`, starting from
      session `s` with the ball at height `y`. */
  function WalkFrom(s: Session, y: real, ds: seq<Droplet>, n: nat,
                    ground: real, bx: real, bw: real, bh: real): (w: Walk)
    requires n <= |ds|
    ensures forall k :: k in w.taken ==> 0 <= k < n
    decreases n
  {
    if n == 0 then Walk(s, y, {}, false)
    else Visit(WalkFrom(s, y, ds, n - 1, ground, bx, bw, bh), ds[n - 1], n - 1, ground, bx, bw, bh)
  }

  /** Droplets `after` are `before` with exactly the indices of `taken` collected. */
  predicate Marked(before: seq<Droplet>, after: seq<Droplet>, taken: set<int>)
  {
    |after| == |before|
    && forall k :: 0 <= k < |before| ==>
         after[k] == (if k in taken then before[k].(collected := true) else before[k])
  }

  /** Marking droplet `i`, when the walk takes it, extends the marking. */
  lemma MarkStep(d0: seq<Droplet>, before: seq<Droplet>, after: seq<Droplet>, taken: set<int>,
                 i: int, took: bool)
    requires 0 <= i < |d0| && Marked(d0, before, taken) && i !in taken
    requires after == if took then before[i := d0[i].(collected := true)] else before
    ensures Marked(d0, after, if took then taken + {i} else taken)
  {
  }

  /** The walk's session is `s` after one pickup per collected droplet. */
  lemma {:induction false} WalkIsCollects(s: Session, y: real, ds: seq<Droplet>, n: nat,
                                          ground: real, bx: real, bw: real, bh: real)
    requires n <= |ds|
    ensures WalkFrom(s, y, ds, n, ground, bx, bw, bh).session
            == Collects(s, |WalkFrom(s, y, ds, n, ground, bx, bw, bh).taken|)
  {
    if n > 0 {
      WalkIsCollects(s, y, ds, n - 1, ground, bx, bw, bh);
      var w := WalkFrom(s, y, ds, n - 1, ground, bx, bw, bh);
      var v := WalkFrom(s, y, ds, n, ground, bx, bw, bh);
      assert v == Visit(w, ds[n - 1], n - 1, ground, bx, bw, bh);
      if Touches(w, ds[n - 1], bx, bw, bh) {
        assert n - 1 !in w.taken;
        assert |v.taken| == |w.taken| + 1;
        assert v.session == Collect(w.session).0;
      } else {
        assert v == w;
      }
    }
  }

  /** Droplet i is collected by the walk exactly when the walk had not
      stopped before it, it was uncollected, and it touched the ball's box
      at the ball's height of that moment. */
  lemma {:induction false} WalkTakesTouched(s: Session, y: real, ds: seq<Droplet>, n: nat, i: nat,
                                            ground: real, bx: real, bw: real, bh: real)
    requires i < n <= |ds|
    ensures i in WalkFrom(s, y, ds, n, ground, bx, bw, bh).taken
            <==> Touches(WalkFrom(s, y, ds, i, ground, bx, bw, bh), ds[i], bx, bw, bh)
    decreases n
  {
    var w := WalkFrom(s, y, ds, n - 1, ground, bx, bw, bh);
    assert n - 1 !in w.taken;
    if i < n - 1 {
      WalkTakesTouched(s, y, ds, n - 1, i, ground, bx, bw, bh);
    }
  }

  /** Once the walk has stopped, the droplets after that point change nothing. */
  lemma {:induction false} WalkStopsForGood(s: Session, y: real, ds: seq<Droplet>, m: nat, n: nat,
                                            ground: real, bx: real, bw: real, bh: real)
    requires m <= n <= |ds| && WalkFrom(s, y, ds, m, ground, bx, bw, bh).stopped
    ensures WalkFrom(s, y, ds, n, ground, bx, bw, bh) == WalkFrom(s, y, ds, m, ground, bx, bw, bh)
    decreases n
  {
    if n > m {
      WalkStopsForGood(s, y, ds, m, n - 1, ground, bx, bw, bh);
    }
  }

  /** A walk that starts from a running reachable session scores 3 per
      collected droplet, keeps the lives and the session reachable, stops
      exactly when the game stops, and moves the ball only with a level-up. */
  lemma {:induction false} WalkKeepsReachable(s: Session, y: real, ds: seq<Droplet>, n: nat,
                                              ground: real, bx: real, bw: real, bh: real)
    requires n <= |ds| && Reachable(s) && s.running
    ensures var w := WalkFrom(s, y, ds, n, ground, bx, bw, bh);
            && Reachable(w.session)
            && (w.stopped <==> !w.session.running)
            && w.session.score == s.score + DROP_POINTS * |w.taken|
            && w.session.lives == s.lives
            && w.session.level >= s.level
            && (w.session.level == s.level ==> w.y == y)
            && (w.session.level != s.level ==> w.y == ground)
  {
    if n > 0 {
      WalkKeepsReachable(s, y, ds, n - 1, ground, bx, bw, bh);
      var w := WalkFrom(s, y, ds, n - 1, ground, bx, bw, bh);
      assert n - 1 !in w.taken;
      VisitKeepsReachable(w, ds[n - 1], n - 1, ground, bx, bw, bh);
    }
  }

  /** One step of the walk keeps the session reachable, scores 3 for a
      collected droplet, keeps the lives, and moves the ball to the ground
      exactly on a level-up. */
  lemma VisitKeepsReachable(w: Walk, d: Droplet, i: int, ground: real, bx: real, bw: real, bh: real)
    requires Reachable(w.session) && (w.stopped <==> !w.session.running)
    ensures var v := Visit(w, d, i, ground, bx, bw, bh);
            && Reachable(v.session)
            && (v.stopped <==> !v.session.running)
            && v.session.score == w.session.score + (if Touches(w, d, bx, bw, bh) then DROP_POINTS else 0)
            && v.session.lives == w.session.lives
            && v.session.level >= w.session.level
            && (v.session.level == w.session.level ==> v.y == w.y)
            && (v.session.level != w.session.level ==> v.y == ground)
  {
    if Touches(w, d, bx, bw, bh) {
      CollectKeepsReachable(w.session);
    }
  }

  class Game {
    /** Canvas size; the model keeps it fixed. */
    const width: real
    const height: real
    /** The facts the card shows; always FACTS. */
    const facts: seq<string>
    /** The samples Math.random returns, in order; `draws` of them are used. */
    const random: nat -> real
    var draws: nat

    var groundY: real
    var ballY: real
    var ballVY: real
    var isJumping: bool
    var ballFallingIn: bool

    /** The script's globals score, level, speed, lives, gameRunning,
        showFactCard, showCtaCard, showGameOverCard and pendingLevelUp, held
        as one record and updated field by field. */
    var session: Session
    var usedFacts: seq<string>

    var obstacles: array<Rock>
    var droplets: array<Droplet>
    /** How many samples each rock and each droplet of the current layout took. */
    ghost var rockTries: seq<nat>
    ghost var dropTries: seq<nat>

    /** The canvas, the random stream and the used-facts list are well formed. */
    ghost predicate Env()
      reads this`usedFacts
    {
      InUnit(random) && width > 0.0 && height > 0.0
      && |facts| > 0 && Distinct(facts) && UsedOk(facts, usedFacts)
    }

    /** The ball: above or on the ground while jumping, on the ground when the
        game runs or waits behind the fact card and no jump is under way, and
        during the fall-in the session is freshly started. */
    ghost predicate BallOk()
      reads this`isJumping, this`ballFallingIn, this`ballY, this`groundY, this`session
    {
      && (isJumping ==> !ballFallingIn && ballY <= groundY)
      && ((session.running || session.factCard) && !isJumping && !ballFallingIn ==> ballY == groundY)
      && (ballFallingIn ==> session.score == 0 && session.lives == MAX_LIVES
                            && !session.factCard && !session.ctaCard && !session.gameOverCard)
    }

    ghost predicate Valid()
      reads this`usedFacts, this`isJumping, this`ballFallingIn, this`ballY, this`groundY, this`session
    {
      Env() && BallOk() && Reachable(session)
    }

    /** The state the script declares before the first start. */
    constructor (width: real, height: real, random: nat -> real)
      requires width > 0.0 && height > 0.0 && InUnit(random)
      ensures Valid()
      ensures this.width == width && this.height == height && this.random == random
      ensures facts == FACTS
      ensures draws == 0 && session == Initial() && usedFacts == []
      ensures groundY == INITIAL_GROUND_Y && ballY == 0.0 && ballVY == 0.0
      ensures !isJumping && !ballFallingIn
      ensures fresh(obstacles) && fresh(droplets)
      ensures obstacles.Length == 0 && droplets.Length == 0
    {
      this.width := width;
      this.height := height;
      this.random := random;
      facts := FACTS;
      FactsDistinct();
      draws := 0;
      groundY := INITIAL_GROUND_Y;
      ballY, ballVY, isJumping, ballFallingIn := 0.0, 0.0, false, false;
      session := Initial();
      usedFacts := [];
      obstacles := new Rock[0];
      droplets := new Droplet[0];
    }

    /** The arrays hold a new level laid out from the stream at `from`, read
        up to `draws`, on the ground of the level reset. */
    ghost predicate LevelLaidOut(from: nat)
      reads this`groundY, this`draws, this`obstacles, this`droplets, this`rockTries, this`dropTries,
            obstacles, droplets
    {
      groundY == GroundLevel(width)
      && NewLevel(obstacles[..], droplets[..], rockTries, dropTries, random, from, draws, width, groundY)
    }

    /** `now` is `used` with the fact the sample at cursor `k` picks
        recorded, the cycle starting over first when it is complete. */
    ghost predicate FactRecorded(used: seq<string>, now: seq<string>, k: nat)
    {
      Distinct(facts) && UsedOk(facts, used) && |facts| > 0 && 0.0 <= random(k) < 1.0
      && now == Record(facts, used, random(k))
    }

    /** The part of the state a walk over the droplets may change, as a value. */
    ghost function Snap(): Snapshot
      reads this
    {
      Snapshot(session.level, session.factCard, obstacles, droplets, groundY, ballVY, isJumping, draws, usedFacts)
    }

    /** What a walk over the droplets keeps between the state `a` it starts
        from and a state `b` it reaches: the level never goes down and the
        cursor never back; on the same level the arrays, the ground, the
        ball's speed and jump flag are those of `a` and the cursor moved only
        for the fact drawn, if any; after a level-up the ground is at the
        level's height and the ball at rest; with the fact card up the used
        facts are `a`'s with the fact the sample just before the cursor picks
        recorded, and without it they are `a`'s. */
    ghost predicate WalkKeeps(a: Snapshot, b: Snapshot)
    {
      && a.level <= b.level && a.draws <= b.draws
      && (b.level == a.level ==>
            b.obstacles == a.obstacles && b.droplets == a.droplets && b.groundY == a.groundY
            && b.vy == a.vy && b.jumping == a.jumping
            && b.draws == a.draws + (if b.factCard then 1 else 0))
      && (b.level != a.level ==> b.groundY == GroundLevel(width) && b.vy == 0.0 && !b.jumping)
      && (b.factCard ==> 0 < b.draws && FactRecorded(a.used, b.used, b.draws - 1))
      && (!b.factCard ==> b.used == a.used)
    }

    /** Two stretches of a walk, the first ending with no fact card up, make one. */
    lemma WalkKeepsChain(a: Snapshot, b: Snapshot, c: Snapshot)
      requires WalkKeeps(a, b) && WalkKeeps(b, c) && !b.factCard
      ensures WalkKeeps(a, c)
    {
    }

    /** A new level: the ground moved to its scaled level, the ball put on it at
        rest, and fresh arrays of two rocks and five droplets drawn from the
        random stream. Nothing of the session changes. */
    method ResetLevel()
      requires Env()
      modifies this`groundY, this`ballY, this`ballVY, this`isJumping, this`draws,
               this`obstacles, this`droplets, this`rockTries, this`dropTries
      ensures ballY == groundY && ballVY == 0.0 && !isJumping
      ensures fresh(obstacles) && fresh(droplets)
      ensures LevelLaidOut(old(draws))
    {
      var gy := GroundLevel(width);
      groundY := gy;
      ballY, ballVY, isJumping := gy, 0.0, false;
      LayOut();
    }

    /** The rocks and droplets of a new level on the current ground, drawn
        from the stream at the cursor. */
    method LayOut()
      requires Env() && groundY == GroundLevel(width)
      modifies this`draws, this`obstacles, this`droplets, this`rockTries, this`dropTries
      ensures fresh(obstacles) && fresh(droplets)
      ensures LevelLaidOut(old(draws))
    {
      var rs, ds, last;
      rs, ds, last, rockTries, dropTries := PlaceLevel(random, draws, width, groundY);
      var ra := ToArray(rs);
      var da := ToArray(ds);
      assert ra[..] == rs && da[..] == ds;
      draws, obstacles, droplets := last, ra, da;
    }

    /** One level up: the level and the speed rise and a new level is laid
        out; the close button of the fact card adds 1.5 to the speed, the
        game loop 1.7. */
    method LevelUp(boost: real)
      requires Env()
      modifies this`session, this`groundY, this`ballY, this`ballVY, this`isJumping,
               this`draws, this`obstacles, this`droplets, this`rockTries, this`dropTries
      ensures session == old(session).(level := old(session).level + 1,
                                       speed := old(session).speed + boost)
      ensures ballY == groundY && ballVY == 0.0 && !isJumping
      ensures fresh(obstacles) && fresh(droplets) && LevelLaidOut(old(draws))
    {
      session := session.(level := session.level + 1);
      session := session.(speed := session.speed + boost);
      ResetLevel();
    }

    /** A fact for the card: when every fact has been shown the list of used
        facts starts over, then one of the facts not yet used is chosen with
        one sample and recorded. */
    method RandomFact() returns (fact: string)
      requires Env()
      modifies this`usedFacts, this`draws
      ensures Env()
      ensures fact == NextFact(facts, old(usedFacts), random(old(draws)))
      ensures usedFacts == Cycle(facts, old(usedFacts)) + [fact]
      ensures draws == old(draws) + 1
    {
      if |usedFacts| == |facts| {
        usedFacts := [];
      }
      var available := Available(facts, usedFacts);
      AvailableNonEmpty(facts, usedFacts);
      fact := available[Pick(random(draws), |available|)];
      RecordKeepsUsedOk(facts, usedFacts, fact);
      usedFacts := usedFacts + [fact];
      draws := draws + 1;
    }

    /** Shows the fact card with a fresh fact and pauses the game. */
    method ShowFact() returns (fact: string)
      requires Env()
      modifies this`usedFacts, this`draws, this`session
      ensures Env()
      ensures session == Progression.ShowFact(old(session))
      ensures fact == NextFact(facts, old(usedFacts), random(old(draws)))
      ensures usedFacts == Cycle(facts, old(usedFacts)) + [fact]
      ensures draws == old(draws) + 1
    {
      fact := RandomFact();
      session := session.(factCard := true);
      session := session.(running := false);
    }

    /** The close button of the fact card: hides it, applies a queued
        level-up (one level, 1.5 speed and a new layout) and resumes the game. */
    method HideFact() returns (next: Scheduled)
      requires Env() && BallOk() && session.factCard
      modifies this
      ensures Env() && BallOk()
      ensures next == LoopFrame
      ensures session == Progression.HideFact(old(session))
      ensures Reachable(old(session)) ==> Reachable(session)
      ensures usedFacts == old(usedFacts) && ballFallingIn == old(ballFallingIn)
      ensures !old(session.pendingLevelUp) ==>
                obstacles == old(obstacles) && droplets == old(droplets)
                && ballY == old(ballY) && ballVY == old(ballVY) && isJumping == old(isJumping)
                && draws == old(draws)
      ensures old(session.pendingLevelUp) ==>
                fresh(obstacles) && fresh(droplets) && LevelLaidOut(old(draws))
                && ballY == groundY && ballVY == 0.0 && !isJumping
    {
      session := session.(factCard := false);
      if session.pendingLevelUp {
        session := session.(pendingLevelUp := false);
        LevelUp(CARD_SPEEDUP);
      }
      session := session.(running := true);
      next := LoopFrame;
      if Reachable(old(session)) {
        HideFactKeepsReachable(old(session));
      }
    }

    /** Shows the win card and pauses the game. */
    method ShowCta()
      modifies this`session
      ensures session == Progression.ShowCta(old(session))
    {
      session := session.(ctaCard := true);
      session := session.(running := false);
    }

    method HideCta()
      modifies this`session
      ensures session == Progression.HideCta(old(session))
    {
      session := session.(ctaCard := false);
    }

    /** The replay button of the win card: hides the card and nothing else
        (the start button it shows again is not modelled). */
    method Replay()
      requires Valid()
      modifies this`session
      ensures Valid()
      ensures session == Progression.HideCta(old(session))
    {
      HideCta();
    }

    /** Stops the game behind the game-over card. */
    method ShowGameOver()
      modifies this`session
      ensures session == Progression.ShowGameOver(old(session))
    {
      session := session.(running := false);
      session := session.(gameOverCard := true);
    }

    method HideGameOver()
      modifies this`session
      ensures session == Progression.HideGameOver(old(session))
    {
      session := session.(gameOverCard := false);
    }

    /** One life lost; with none left the game-over card is shown. The result
        says whether the game is over. */
    method LoseLife() returns (over: bool)
      modifies this`session
      ensures session == Progression.LoseLife(old(session))
      ensures over <==> session.lives <= 0
    {
      session := session.(lives := session.lives - 1);
      if session.lives <= 0 {
        ShowGameOver();
        return true;
      }
      return false;
    }

    /** The restart button of the game-over card: counters back to five lives,
        no score, level 1 and speed 5.5, and a new layout. */
    method ResetGame()
      requires Valid()
      modifies this
      ensures Valid()
      ensures session == Progression.ResetGame(old(session))
      ensures usedFacts == old(usedFacts) && ballFallingIn == old(ballFallingIn)
      ensures fresh(obstacles) && fresh(droplets) && LevelLaidOut(old(draws))
      ensures ballY == groundY && ballVY == 0.0 && !isJumping
    {
      HideGameOver();
      session := session.(lives := MAX_LIVES, score := 0);
      session := session.(level := 1, speed := RESET_SPEED);
      ResetLevel();
      ResetGameKeepsReachable(old(session));
    }

    /** Puts the ball above the canvas at rest and starts the fall-in. */
    method StartBallFallIn() returns (next: Scheduled)
      modifies this`ballY, this`ballVY, this`ballFallingIn, this`isJumping
      ensures ballY == -60.0 * (height / 393.0) && ballVY == 0.0
      ensures ballFallingIn && !isJumping
      ensures next == FallInFrame
    {
      ballY := -60.0 * (height / 393.0);
      ballVY := 0.0;
      ballFallingIn := true;
      isJumping := false;
      next := FallInFrame;
    }

    /** The counters the start button resets, with the call-to-action and
        game-over cards hidden and the fact cycle restarted. */
    method ResetCounters()
      modifies this`session, this`usedFacts
      ensures session == old(session).(score := 0, level := 1, speed := START_SPEED, lives := MAX_LIVES,
                                        ctaCard := false, gameOverCard := false)
      ensures usedFacts == []
    {
      HideCta();
      HideGameOver();
      session := session.(score := 0, level := 1);
      session := session.(speed := START_SPEED, lives := MAX_LIVES);
      usedFacts := [];
    }

    /** The start button: every card hidden, score 0, level 1, speed 5.0, five
        lives, the fact cycle restarted, a new layout, and the ball falling in.
        The game runs only once the ball lands. */
    method Start() returns (next: Scheduled)
      requires Valid()
      modifies this
      ensures Valid()
      ensures session == Progression.Start(old(session))
      ensures usedFacts == []
      ensures fresh(obstacles) && fresh(droplets) && LevelLaidOut(old(draws))
      ensures ballFallingIn && !isJumping && ballVY == 0.0 && ballY == -60.0 * (height / 393.0)
      ensures groundY == GroundLevel(width)
      ensures next == FallInFrame
    {
      ResetCounters();
      ResetLevel();
      session := session.(factCard := false, ctaCard := false, gameOverCard := false);
      StartIsReachable(old(session));
      assert session == Progression.Start(old(session));
      next := StartBallFallIn();
    }

    /** One frame of the fall-in: the ball steps under gravity; on reaching the
        ground it stops there, the fall-in ends and the game starts running. */
    method FallInStep() returns (next: Scheduled)
      requires Valid()
      modifies this`ballY, this`ballVY, this`ballFallingIn, this`session
      ensures Valid()
      ensures !old(ballFallingIn) ==>
                next == Nothing && ballY == old(ballY) && ballVY == old(ballVY)
                && !ballFallingIn && session == old(session)
      ensures old(ballFallingIn) ==>
                Ball(ballY, ballVY, ballFallingIn) == Step(Ball(old(ballY), old(ballVY), true), groundY)
      ensures old(ballFallingIn) ==>
                (if ballFallingIn then next == FallInFrame && session == old(session)
                 else next == LoopFrame && session == Landed(old(session)))
    {
      if !ballFallingIn {
        return Nothing;
      }
      ballVY := ballVY + GRAVITY;
      ballY := ballY + ballVY;
      if ballY >= groundY {
        ballY := groundY;
        ballVY := 0.0;
        ballFallingIn := false;
        session := session.(running := true);
        return LoopFrame;
      }
      return FallInFrame;
    }

    /** A press on the canvas starts a jump when the game runs, no jump is
        under way and the ball is not falling in. */
    method Jump()
      requires Valid()
      modifies this`ballVY, this`isJumping
      ensures Valid()
      ensures if old(session.running && !isJumping && !ballFallingIn)
              then ballVY == JUMP_VELOCITY && isJumping
              else ballVY == old(ballVY) && isJumping == old(isJumping)
    {
      if session.running && !isJumping && !ballFallingIn {
        ballVY := JUMP_VELOCITY;
        isJumping := true;
      }
    }

    /** The jump physics of one frame: a jumping ball takes one step. */
    method MoveBall()
      requires BallOk() && session.running && !ballFallingIn
      modifies this`ballY, this`ballVY, this`isJumping
      ensures BallOk()
      ensures old(isJumping) ==>
                Ball(ballY, ballVY, isJumping) == Step(Ball(old(ballY), old(ballVY), true), groundY)
      ensures !old(isJumping) ==> ballY == old(ballY) && ballVY == old(ballVY) && !isJumping
    {
      if isJumping {
        ballVY := ballVY + GRAVITY;
        ballY := ballY + ballVY;
        if ballY >= groundY {
          ballY := groundY;
          isJumping := false;
          ballVY := 0.0;
        }
      }
    }

    /** Every rock moves left by the speed; a rock that leaves the screen is
        put back beyond the respawn anchor at once, with the others as the
        loop sees them: rocks before it already moved, rocks after it not yet,
        droplets where the last frame left them. */
    method ScrollRocks() returns (ghost starts: seq<nat>, ghost anchors: seq<real>, ghost tries: seq<nat>)
      requires Env()
      modifies this`draws, obstacles
      ensures draws >= old(draws)
      ensures RockRuns(old(obstacles[..]), obstacles[..], session.speed, droplets[..], width, random,
                       old(draws), draws, starts, anchors, tries)
    {
      var speed := session.speed;
      ghost var drops := droplets[..];
      ghost var before := obstacles[..];
      starts, anchors, tries := [], [], [];
      for i := 0 to obstacles.Length
        invariant droplets[..] == drops
        invariant |obstacles[..]| == |before| && obstacles[i..] == before[i..]
        invariant |anchors| == i && |starts| == i
        invariant draws >= old(draws) && Consecutive(starts, tries, old(draws), draws)
        invariant forall k :: 0 <= k < i ==>
                    RockAdvanced(before[k], obstacles[k], speed, obstacles[..k] + before[k..], k,
                                 drops, width, random, starts[k], anchors[k], tries[k])
      {
        ghost var prev, from := obstacles[..], draws;
        var anchor, n := MoveRock(i, speed, droplets[..]);
        RocksStepOn(before, prev, obstacles[i], i, speed, drops, width, random, starts, anchors, tries,
                    from, anchor, n);
        ConsecutiveAppend(starts, tries, old(draws), from, n);
        starts, anchors, tries := starts + [from], anchors + [anchor], tries + [n];
      }
    }

    /** One rock of the scroll: rock i moves left by the speed and, once fully
        off the left edge, is respawned against the rocks as they stand and
        the droplets `drops`. */
    method MoveRock(i: nat, speed: real, drops: seq<Droplet>) returns (anchor: real, n: nat)
      requires Env() && i < obstacles.Length
      modifies this`draws, obstacles
      ensures obstacles[..] == old(obstacles[..])[i := obstacles[i]]
      ensures draws == old(draws) + n
      ensures RockAdvanced(old(obstacles[i]), obstacles[i], speed, old(obstacles[..]), i, drops, width,
                           random, old(draws), anchor, n)
    {
      var obs := obstacles[i].(x := obstacles[i].x - speed);
      anchor, n := 0.0, 0;
      if obs.x + obs.w < 0.0 {
        var x;
        x, anchor, n := RespawnRock(random, draws, width, obstacles[..], i, drops);
        obs := obs.(x := x);
        draws := draws + n;
      }
      obstacles[i] := obs;
    }

    /** Every droplet moves left by the speed; a droplet that leaves the screen
        takes a new spot in [width, 1.5 width) and becomes uncollected again
        only when one of 10 samples gives a good spot, checked against the rocks
        where this frame moved them and the droplets as the loop sees them. */
    method ScrollDroplets() returns (ghost starts: seq<nat>, ghost tries: seq<nat>, ghost respawned: seq<bool>)
      requires Env()
      modifies this`draws, droplets
      ensures draws >= old(draws)
      ensures DropletRuns(old(droplets[..]), droplets[..], session.speed, obstacles[..], width, random,
                          old(draws), draws, starts, tries, respawned)
    {
      var speed := session.speed;
      ghost var rocks := obstacles[..];
      ghost var before := droplets[..];
      starts, tries, respawned := [], [], [];
      for i := 0 to droplets.Length
        invariant obstacles[..] == rocks
        invariant |droplets[..]| == |before| && droplets[i..] == before[i..]
        invariant |starts| == i && |respawned| == i
        invariant draws >= old(draws) && Consecutive(starts, tries, old(draws), draws)
        invariant forall k :: 0 <= k < i ==>
                    DropletAdvanced(before[k], droplets[k], speed, rocks, droplets[..k] + before[k..],
                                    k, width, random, starts[k], tries[k], respawned[k])
      {
        ghost var prev, from := droplets[..], draws;
        var n, done := MoveDroplet(i, speed, obstacles[..]);
        DropletsStepOn(before, prev, droplets[i], i, speed, rocks, width, random, starts, tries, respawned,
                       from, n, done);
        ConsecutiveAppend(starts, tries, old(draws), from, n);
        starts, tries, respawned := starts + [from], tries + [n], respawned + [done];
      }
    }

    /** One droplet of the scroll: droplet i moves left by the speed and, once
        fully off the left edge, takes a good spot among up to 10 samples if
        there is one; otherwise it stays where the move put it. */
    method MoveDroplet(i: nat, speed: real, rocks: seq<Rock>) returns (n: nat, done: bool)
      requires Env() && i < droplets.Length
      modifies this`draws, droplets
      ensures droplets[..] == old(droplets[..])[i := droplets[i]]
      ensures draws == old(draws) + n
      ensures DropletAdvanced(old(droplets[i]), droplets[i], speed, rocks, old(droplets[..]), i, width,
                              random, old(draws), n, done)
    {
      var drop := droplets[i].(x := droplets[i].x - speed);
      n, done := 0, false;
      if drop.x + drop.w < 0.0 {
        var x, valid;
        x, valid, n := RespawnDroplet(random, draws, width, rocks, droplets[..], i);
        draws := draws + n;
        if valid {
          drop := drop.(x := x, collected := false);
          done := true;
        }
      }
      droplets[i] := drop;
    }

    /** The fact-card branch of a pick-up: a level-up is queued when the
        score is also a multiple of 60 below level 3, then a fact is shown. */
    method QueueFact()
      requires Env()
      modifies this`session, this`usedFacts, this`draws
      ensures Env()
      ensures var s := old(session);
              session == Progression.ShowFact(
                           if s.score % LEVEL_EVERY == 0 && s.level < MAX_LEVEL then s.(pendingLevelUp := true) else s)
      ensures usedFacts == Record(facts, old(usedFacts), random(old(draws)))
      ensures draws == old(draws) + 1
    {
      if session.score % LEVEL_EVERY == 0 && session.level < MAX_LEVEL {
        session := session.(pendingLevelUp := true);
      }
      var fact := ShowFact();
    }

    /** What a collected droplet does to the session: 3 points, then the win
        card at exactly 180, else the fact card at a multiple of 45 (queueing
        a level-up when the score is also a multiple of 60 below level 3), else
        a level-up in place (one level, 1.7 speed, a new layout). */
    method CollectDroplet() returns (outcome: Pickup)
      requires Env()
      modifies this`session, this`usedFacts, this`draws, this`groundY, this`ballY, this`ballVY,
               this`isJumping, this`obstacles, this`droplets, this`rockTries, this`dropTries
      ensures Env()
      ensures session == Collect(old(session)).0
      ensures outcome == Collect(old(session)).1
      ensures outcome == LeveledUp ==>
                fresh(obstacles) && fresh(droplets) && LevelLaidOut(old(draws))
                && ballY == groundY && ballVY == 0.0 && !isJumping
      ensures outcome != LeveledUp ==>
                obstacles == old(obstacles) && droplets == old(droplets)
                && ballY == old(ballY) && ballVY == old(ballVY) && isJumping == old(isJumping)
                && groundY == old(groundY)
      ensures outcome == FactShown ==>
                usedFacts == Record(facts, old(usedFacts), random(old(draws)))
                && draws == old(draws) + 1
      ensures outcome != FactShown ==> usedFacts == old(usedFacts)
      ensures outcome == Won || outcome == Continue ==> draws == old(draws)
    {
      session := session.(score := session.score + DROP_POINTS);
      var score := session.score;
      if score == WIN_SCORE {
        ShowCta();
        return Won;
      }
      if score > 0 && score % FACT_EVERY == 0 && score != WIN_SCORE && !session.factCard {
        QueueFact();
        return FactShown;
      }
      if score > 0 && score % LEVEL_EVERY == 0 && session.level < MAX_LEVEL {
        LevelUp(LOOP_SPEEDUP);
        return LeveledUp;
      }
      return Continue;
    }

    /** One frame of the game loop. It does nothing unless the game runs and
        the ball is not falling in. Otherwise rocks and droplets scroll and the
        ball takes its jump step (`frame` is the result). A rock hit (`hit`)
        costs a life and ends the frame: with no life left behind the
        game-over card, otherwise on a new layout with the loop going on.
        Without a hit, the droplets the frame started with are walked in
        order, even after a level-up replaced the arrays, and every
        uncollected droplet touching the ball is collected; the win or a fact
        card ends the frame. The result says whether the loop asked for
        another frame. */
    method Tick() returns (next: Scheduled, ghost frame: Frame, ghost hit: bool)
      requires Valid()
      modifies this, obstacles, droplets
      ensures Valid()
      ensures next == LoopFrame <==> old(session.running) && !old(ballFallingIn) && session.running
      ensures next != LoopFrame ==> next == Nothing
      ensures !old(session.running) || old(ballFallingIn) ==>
                unchanged(this) && obstacles[..] == old(obstacles[..]) && droplets[..] == old(droplets[..])
      ensures old(session.running) && !old(ballFallingIn) ==>
                Moved(old(obstacles[..]), old(droplets[..]), Ball(old(ballY), old(ballVY), old(isJumping)),
                      old(session.speed), width, old(groundY), random, old(draws), frame)
                && (hit <==> RockHit(frame.rocks, BallLeft(width), frame.ball.y, BallSize(width), BallSize(width)))
      ensures ballFallingIn == old(ballFallingIn)
      ensures old(session.running) && !old(ballFallingIn) && hit ==>
                session == Progression.LoseLife(old(session)) && usedFacts == old(usedFacts)
      ensures old(session.running) && !old(ballFallingIn) && hit && session.lives <= 0 ==>
                obstacles == old(obstacles) && droplets == old(droplets)
                && obstacles[..] == frame.rocks && droplets[..] == frame.drops
                && draws == frame.last && ballY == frame.ball.y
                && ballVY == frame.ball.vy && isJumping == frame.ball.airborne && groundY == old(groundY)
      ensures old(session.running) && !old(ballFallingIn) && hit && session.lives > 0 ==>
                fresh(obstacles) && fresh(droplets) && LevelLaidOut(frame.last)
                && ballY == groundY && ballVY == 0.0 && !isJumping
      ensures old(session.running) && !old(ballFallingIn) && !hit ==>
                var w := WalkFrom(old(session), frame.ball.y, frame.drops, |frame.drops|, GroundLevel(width),
                                  BallLeft(width), BallSize(width), BallSize(width));
                && session == w.session && ballY == w.y
                && Marked(frame.drops, old(droplets)[..], w.taken)
                && session.score == old(session.score) + DROP_POINTS * |w.taken|
                && session.lives == old(session.lives)
                && (session.level == old(session.level) ==> obstacles[..] == frame.rocks)
                && WalkKeeps(Snapshot(old(session.level), old(session.factCard), old(obstacles), old(droplets),
                                      old(groundY), frame.ball.vy, frame.ball.airborne, frame.last,
                                      old(usedFacts)),
                             Snap())
    {
      hit := false;
      frame := Frame(obstacles[..], droplets[..], Ball(ballY, ballVY, isJumping), draws, draws);
      if !session.running || ballFallingIn {
        return Nothing, frame, hit;
      }
      frame := Advance();
      var rockHit;
      next, rockHit := Resolve();
      hit := rockHit;
    }

    /** The second half of a frame, after the move: a rock hit costs a life,
        otherwise the droplets the ball touches are collected. */
    method Resolve() returns (next: Scheduled, hit: bool)
      requires Valid() && session.running && !ballFallingIn
      modifies this, obstacles, droplets
      ensures Valid()
      ensures hit <==> RockHit(old(obstacles[..]), BallLeft(width), old(ballY), BallSize(width), BallSize(width))
      ensures next == LoopFrame <==> session.running
      ensures next != LoopFrame ==> next == Nothing
      ensures hit ==> session == Progression.LoseLife(old(session))
      ensures ballFallingIn == old(ballFallingIn)
      ensures hit ==> usedFacts == old(usedFacts)
      ensures hit && session.lives <= 0 ==>
                obstacles == old(obstacles) && droplets == old(droplets)
                && obstacles[..] == old(obstacles[..]) && droplets[..] == old(droplets[..])
                && draws == old(draws) && ballY == old(ballY)
                && ballVY == old(ballVY) && isJumping == old(isJumping) && groundY == old(groundY)
      ensures hit && session.lives > 0 ==>
                fresh(obstacles) && fresh(droplets) && LevelLaidOut(old(draws))
                && ballY == groundY && ballVY == 0.0 && !isJumping
      ensures !hit ==>
                var w := WalkFrom(old(session), old(ballY), old(droplets[..]), old(droplets.Length), GroundLevel(width),
                                  BallLeft(width), BallSize(width), BallSize(width));
                && session == w.session && ballY == w.y
                && Marked(old(droplets[..]), old(droplets)[..], w.taken)
                && session.score == old(session.score) + DROP_POINTS * |w.taken|
                && session.lives == old(session.lives)
                && (session.level == old(session.level) ==> obstacles[..] == old(obstacles[..]))
                && WalkKeeps(old(Snap()), Snap())
    {
      var ballX, ballW, ballH := BallLeft(width), BallSize(width), BallSize(width);
      hit := AnyRockHit(obstacles[..], ballX, ballY, ballW, ballH);
      if hit {
        var over := Crash();
        next := if over then Nothing else LoopFrame;
      } else {
        var stopped := Gather(ballX, ballW, ballH);
        next := if stopped then Nothing else LoopFrame;
      }
    }

    /** A rock hit: one life less, then either the game-over card or a new
        layout of the current level with the ball back on the ground. */
    method Crash() returns (over: bool)
      requires Valid() && session.running && !ballFallingIn
      modifies this
      ensures Valid() && ballFallingIn == old(ballFallingIn)
      ensures session == Progression.LoseLife(old(session))
      ensures over <==> session.lives <= 0
      ensures usedFacts == old(usedFacts)
      ensures over ==>
                obstacles == old(obstacles) && droplets == old(droplets)
                && draws == old(draws) && ballY == old(ballY)
                && ballVY == old(ballVY) && isJumping == old(isJumping) && groundY == old(groundY)
      ensures !over ==>
                fresh(obstacles) && fresh(droplets) && LevelLaidOut(old(draws))
                && ballY == groundY && ballVY == 0.0 && !isJumping
    {
      LoseLifeKeepsReachable(session);
      over := LoseLife();
      if !over {
        ResetLevel();
      }
    }

    /** The droplet half of a frame that hit no rock: the walk over the
        current droplet array, with what it does to the score and lives. */
    method Gather(ballX: real, ballW: real, ballH: real) returns (stopped: bool)
      requires Valid() && session.running && !ballFallingIn
      modifies this, droplets
      ensures Valid() && ballFallingIn == old(ballFallingIn)
      ensures session.running <==> !stopped
      ensures var w := WalkFrom(old(session), old(ballY), old(droplets[..]), old(droplets.Length),
                                GroundLevel(width), ballX, ballW, ballH);
              && session == w.session && ballY == w.y && stopped == w.stopped
              && Marked(old(droplets[..]), old(droplets)[..], w.taken)
              && session.score == old(session.score) + DROP_POINTS * |w.taken|
              && session.lives == old(session.lives)
      ensures WalkKeeps(old(Snap()), Snap())
    {
      ghost var s0, y0, d0 := session, ballY, droplets[..];
      ghost var walk;
      stopped, walk := CollectTouched(droplets, ballX, ballW, ballH);
      WalkKeepsReachable(s0, y0, d0, |d0|, GroundLevel(width), ballX, ballW, ballH);
    }

    /** The scrolling half of a frame: rocks first, reading the stream from
        the cursor, then droplets against the moved rocks; `mid` is where the
        rocks left the cursor. */
    method Scroll() returns (ghost mid: nat)
      requires Env()
      modifies this`draws, obstacles, droplets
      ensures old(draws) <= mid <= draws
      ensures RocksScrolled(old(obstacles[..]), obstacles[..], session.speed, old(droplets[..]), width, random,
                            old(draws), mid)
      ensures DropletsScrolled(old(droplets[..]), droplets[..], session.speed, obstacles[..], width, random,
                               mid, draws)
    {
      ghost var rocks0, drops0 := obstacles[..], droplets[..];
      ghost var rockStarts, anchors, rockTries := ScrollRocks();
      mid := draws;
      ghost var rocks := obstacles[..];
      assert RockRuns(rocks0, rocks, session.speed, drops0, width, random, old(draws), mid,
                      rockStarts, anchors, rockTries);
      ghost var dropStarts, dropTries, respawned := ScrollDroplets();
      assert DropletRuns(drops0, droplets[..], session.speed, rocks, width, random, mid, draws,
                         dropStarts, dropTries, respawned);
    }

    /** The moving part of a frame: rocks, then droplets, then the ball. */
    method Advance() returns (ghost frame: Frame)
      requires Valid() && session.running && !ballFallingIn
      modifies this`draws, this`ballY, this`ballVY, this`isJumping, obstacles, droplets
      ensures Valid()
      ensures Moved(old(obstacles[..]), old(droplets[..]), Ball(old(ballY), old(ballVY), old(isJumping)),
                    session.speed, width, groundY, random, old(draws), frame)
      ensures frame.rocks == obstacles[..] && frame.drops == droplets[..] && frame.last == draws
      ensures frame.ball == Ball(ballY, ballVY, isJumping)
    {
      ghost var mid := Scroll();
      MoveBall();
      frame := Frame(obstacles[..], droplets[..], Ball(ballY, ballVY, isJumping), mid, draws);
    }

    /** One pick-up inside the walk: the droplet at `i` is marked collected
        and the session moves on by Collect, with what the outcome does to
        the ball and the arrays. */
    method Take(ds: array<Droplet>, i: nat) returns (outcome: Pickup)
      requires Valid() && session.running && !ballFallingIn && i < ds.Length
      modifies this, ds
      ensures Valid() && ballFallingIn == old(ballFallingIn)
      ensures ds[..] == old(ds[..])[i := old(ds[i]).(collected := true)]
      ensures session == Collect(old(session)).0 && outcome == Collect(old(session)).1
      ensures outcome == LeveledUp ==>
                fresh(obstacles) && fresh(droplets) && groundY == GroundLevel(width)
                && ballY == groundY && ballVY == 0.0 && !isJumping
      ensures outcome != LeveledUp ==>
                obstacles == old(obstacles) && droplets == old(droplets) && groundY == old(groundY)
                && ballY == old(ballY) && ballVY == old(ballVY) && isJumping == old(isJumping)
      ensures outcome == LeveledUp ==> LevelLaidOut(old(draws))
      ensures outcome == FactShown ==>
                usedFacts == Record(facts, old(usedFacts), random(old(draws))) && draws == old(draws) + 1
      ensures outcome != FactShown ==> usedFacts == old(usedFacts)
      ensures outcome == Won || outcome == Continue ==> draws == old(draws)
      ensures WalkKeeps(old(Snap()), Snap())
    {
      ds[i] := ds[i].(collected := true);
      CollectKeepsReachable(session);
      outcome := CollectDroplet();
    }

    /** One step of the walk: the droplet at `i` is collected when it is
        uncollected and touches the ball's box, as Visit says, with what the
        pick-up does to the ball and the arrays. */
    method VisitDroplet(ds: array<Droplet>, i: nat, ballX: real, ballW: real, ballH: real, ghost w: Walk)
      returns (stop: bool)
      requires Valid() && session.running && !ballFallingIn && i < ds.Length
      requires !w.stopped && w.session == session && w.y == ballY
      modifies this, ds
      ensures var v := Visit(w, old(ds[i]), i, GroundLevel(width), ballX, ballW, ballH);
              session == v.session && ballY == v.y && stop == v.stopped
      ensures Valid() && ballFallingIn == old(ballFallingIn) && (!stop ==> session.running)
      ensures ds[..] == if Touches(w, old(ds[i]), ballX, ballW, ballH)
                        then old(ds[..])[i := old(ds[i]).(collected := true)] else old(ds[..])
      ensures WalkKeeps(old(Snap()), Snap())
      ensures session.level != old(session.level) ==>
                fresh(obstacles) && fresh(droplets) && LevelLaidOut(old(draws))
      ensures !Touches(w, old(ds[i]), ballX, ballW, ballH) ==> unchanged(this)
    {
      var drop := ds[i];
      stop := false;
      if !drop.collected && Collides(ballX, ballY, ballW, ballH, drop.x, drop.y, drop.w, drop.h) {
        var outcome := Take(ds, i);
        stop := outcome == Won || outcome == FactShown;
      }
    }

    /** The droplet part of a frame: walks `ds`, the droplet array the frame
        started with, and collects every uncollected droplet the ball's box
        touches, even when a level-up on the way has replaced the game's
        arrays; `walk` is the walk WalkFrom describes. The win or a fact card
        stops the walk; the result says whether it stopped. */
    method CollectTouched(ds: array<Droplet>, ballX: real, ballW: real, ballH: real)
      returns (stopped: bool, ghost walk: Walk)
      requires Valid() && session.running && !ballFallingIn
      modifies this, ds
      ensures walk == WalkFrom(old(session), old(ballY), old(ds[..]), ds.Length,
                               GroundLevel(width), ballX, ballW, ballH)
      ensures Valid() && ballFallingIn == old(ballFallingIn)
      ensures session == walk.session && stopped == walk.stopped && ballY == walk.y
      ensures Marked(old(ds[..]), ds[..], walk.taken)
      ensures WalkKeeps(old(Snap()), Snap())
      ensures session.level != old(session.level) ==> fresh(obstacles) && fresh(droplets)
    {
      ghost var s0, y0, d0, start := session, ballY, ds[..], Snap();
      ghost var ground := GroundLevel(width);
      walk := WalkFrom(s0, y0, d0, 0, ground, ballX, ballW, ballH);
      for i := 0 to ds.Length
        invariant Valid() && session.running && !ballFallingIn
        invariant walk == WalkFrom(s0, y0, d0, i, ground, ballX, ballW, ballH)
        invariant !walk.stopped && session == walk.session && ballY == walk.y
        invariant Marked(d0, ds[..], walk.taken)
        invariant WalkKeeps(start, Snap())
        invariant session.level != s0.level ==> fresh(obstacles) && fresh(droplets)
      {
        assert ds[i] == d0[i] by { assert i !in walk.taken; }
        ghost var before, mid := ds[..], Snap();
        var stop := VisitDroplet(ds, i, ballX, ballW, ballH, walk);
        WalkKeepsChain(start, mid, Snap());
        MarkStep(d0, before, ds[..], walk.taken, i, Touches(walk, d0[i], ballX, ballW, ballH));
        walk := WalkFrom(s0, y0, d0, i + 1, ground, ballX, ballW, ballH);
        if stop {
          WalkStopsForGood(s0, y0, d0, i + 1, ds.Length, ground, ballX, ballW, ballH);
          return true, walk;
        }
      }
      stopped := false;
    }
  }
}
