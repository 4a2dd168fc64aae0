/**
  The session counters and flags of the game and the transitions that change
  them: droplet pickups (score, fact card, in-place level-up, win), losing a
  life, the fact, win and game-over cards, and the two reset paths.
  The game class performs these updates in place; the functions here are its
  specification and carry the lemmas about whole sequences of transitions.
 */
module Progression {

  const DROP_POINTS := 3
  const WIN_SCORE := 180
  const FACT_EVERY := 45
  const LEVEL_EVERY := 60
  const MAX_LEVEL := 3
  const MAX_LIVES := 5
  /** Speed added by a level-up inside the game loop. */
  const LOOP_SPEEDUP: real := 1.7
  /** Speed added by a level-up deferred to the closing of a fact card. */
  const CARD_SPEEDUP: real := 1.5
  /** Speed set by the start button. */
  const START_SPEED: real := 5.0
  /** Speed of the initial declaration and of the game-over restart. */
  const RESET_SPEED: real := 5.5

  /** score, level, speed, lives and the flags gameRunning, showFactCard,
      showCtaCard, showGameOverCard and pendingLevelUp. */
  datatype Session = Session(score: int, level: int, speed: real, lives: int,
                             running: bool, factCard: bool, ctaCard: bool,
                             gameOverCard: bool, pendingLevelUp: bool)

  /** What a pickup asks of the rest of the frame: carry on, rebuild the layout
      and carry on, or stop the frame behind the win or the fact card. */
  datatype Pickup = Continue | LeveledUp | Won | FactShown

  /** The session as the script declares it, before the first start. */
  function Initial(): (r: Session)
    ensures Reachable(r)
    ensures !r.running && !r.factCard && !r.ctaCard && !r.gameOverCard
  {
    Session(0, 1, RESET_SPEED, MAX_LIVES, false, false, false, false, false)
  }

  function ShowFact(s: Session): (r: Session)
    ensures r.factCard && !r.running
    ensures Counters(r) == Counters(s) && r.pendingLevelUp == s.pendingLevelUp
    ensures r.ctaCard == s.ctaCard && r.gameOverCard == s.gameOverCard
  {
    s.(factCard := true, running := false)
  }

  /** Closing the fact card applies a pending level-up and always resumes. */
  function HideFact(s: Session): (r: Session)
    ensures !r.factCard && r.running && !r.pendingLevelUp
    ensures r.level == if s.pendingLevelUp then s.level + 1 else s.level
    ensures r.speed == if s.pendingLevelUp then s.speed + CARD_SPEEDUP else s.speed
    ensures r.score == s.score && r.lives == s.lives
    ensures r.ctaCard == s.ctaCard && r.gameOverCard == s.gameOverCard
  {
    var t := s.(factCard := false);
    var u := if t.pendingLevelUp
             then t.(pendingLevelUp := false, level := t.level + 1, speed := t.speed + CARD_SPEEDUP)
             else t;
    u.(running := true)
  }

  function ShowCta(s: Session): (r: Session)
    ensures r.ctaCard && !r.running
    ensures Counters(r) == Counters(s) && r.pendingLevelUp == s.pendingLevelUp
    ensures r.factCard == s.factCard && r.gameOverCard == s.gameOverCard
  {
    s.(ctaCard := true, running := false)
  }

  function HideCta(s: Session): (r: Session)
    ensures !r.ctaCard && r.running == s.running
    ensures Counters(r) == Counters(s) && r.pendingLevelUp == s.pendingLevelUp
    ensures r.factCard == s.factCard && r.gameOverCard == s.gameOverCard
  {
    s.(ctaCard := false)
  }

  function ShowGameOver(s: Session): (r: Session)
    ensures r.gameOverCard && !r.running
    ensures Counters(r) == Counters(s) && r.pendingLevelUp == s.pendingLevelUp
    ensures r.factCard == s.factCard && r.ctaCard == s.ctaCard
  {
    s.(running := false, gameOverCard := true)
  }

  function HideGameOver(s: Session): (r: Session)
    ensures !r.gameOverCard && r.running == s.running
    ensures Counters(r) == Counters(s) && r.pendingLevelUp == s.pendingLevelUp
    ensures r.factCard == s.factCard && r.ctaCard == s.ctaCard
  {
    s.(gameOverCard := false)
  }

  /** One life lost; at zero lives or fewer the game-over card is shown. */
  function LoseLife(s: Session): (r: Session)
    ensures r.lives == s.lives - 1
    ensures r.gameOverCard <==> s.gameOverCard || s.lives <= 1
    ensures r.running <==> s.running && s.lives > 1
    ensures r.score == s.score && r.level == s.level && r.speed == s.speed
    ensures r.factCard == s.factCard && r.ctaCard == s.ctaCard && r.pendingLevelUp == s.pendingLevelUp
  {
    var t := s.(lives := s.lives - 1);
    if t.lives <= 0 then ShowGameOver(t) else t
  }

  /** The restart button of the game-over card. */
  function ResetGame(s: Session): (r: Session)
    ensures Counters(r) == (0, 1, RESET_SPEED, MAX_LIVES) && !r.gameOverCard
    ensures r.running == s.running && r.factCard == s.factCard && r.ctaCard == s.ctaCard
    ensures r.pendingLevelUp == s.pendingLevelUp
  {
    HideGameOver(s).(lives := MAX_LIVES, score := 0, level := 1, speed := RESET_SPEED)
  }

  /** The start button: every counter back to its start value and every card
      hidden; the game itself resumes only when the fall-in animation lands. */
  function Start(s: Session): (r: Session)
    ensures Counters(r) == (0, 1, START_SPEED, MAX_LIVES)
    ensures !r.factCard && !r.ctaCard && !r.gameOverCard
    ensures r.running == s.running && r.pendingLevelUp == s.pendingLevelUp
  {
    HideGameOver(HideCta(s)).(score := 0, level := 1, speed := START_SPEED, lives := MAX_LIVES,
                              factCard := false, ctaCard := false, gameOverCard := false)
  }

  /** Landing of the fall-in animation. */
  function Landed(s: Session): (r: Session)
    ensures r.running
    ensures Counters(r) == Counters(s) && r.pendingLevelUp == s.pendingLevelUp
    ensures r.factCard == s.factCard && r.ctaCard == s.ctaCard && r.gameOverCard == s.gameOverCard
  {
    s.(running := true)
  }

  /** A droplet collected: 3 points, then the win at exactly 180, else a fact
      card at a positive multiple of 45 (queueing a level-up if the score is
      also a multiple of 60 below level 3), else an in-place level-up at a
      positive multiple of 60 below level 3. */
  function Collect(s: Session): (r: (Session, Pickup))
    ensures r.0.score == s.score + DROP_POINTS && r.0.lives == s.lives
    ensures r.1 == Won <==> s.score + DROP_POINTS == WIN_SCORE
    ensures r.1 == Won ==> r.0.ctaCard && !r.0.running
    ensures r.1 == FactShown ==> r.0.factCard && !r.0.running && r.0.level == s.level
    ensures r.1 == LeveledUp ==> r.0.level == s.level + 1 && r.0.speed == s.speed + LOOP_SPEEDUP
    ensures r.1 == Continue ==> r.0 == s.(score := s.score + DROP_POINTS)
  {
    var t := s.(score := s.score + DROP_POINTS);
    if t.score == WIN_SCORE then
      (ShowCta(t), Won)
    else if t.score > 0 && t.score % FACT_EVERY == 0 && t.score != WIN_SCORE && !t.factCard then
      var u := if t.score % LEVEL_EVERY == 0 && t.level < MAX_LEVEL then t.(pendingLevelUp := true) else t;
      (ShowFact(u), FactShown)
    else if t.score > 0 && t.score % LEVEL_EVERY == 0 && t.level < MAX_LEVEL then
      (t.(level := t.level + 1, speed := t.speed + LOOP_SPEEDUP), LeveledUp)
    else
      (t, Continue)
  }

  /** The level a reachable session is on for its score. */
  function LevelFor(score: int): (level: int)
    ensures 0 <= score ==> 1 <= level <= MAX_LEVEL
    ensures 0 <= score < WIN_SCORE ==> LEVEL_EVERY * (level - 1) <= score < LEVEL_EVERY * level
  {
    if score < WIN_SCORE then 1 + score / LEVEL_EVERY else MAX_LEVEL
  }

  /** The four counters of a session: score, level, speed and lives. */
  function Counters(s: Session): (int, int, real, int)
  {
    (s.score, s.level, s.speed, s.lives)
  }

  /** The speed of a session on `level` whose last reset set `base`, when
      every level-up so far happened inside the game loop. */
  function SpeedFor(base: real, level: int): (speed: real)
  {
    base + LOOP_SPEEDUP * (level - 1) as real
  }

  /** The sessions the game can reach from its initial state. */
  ghost predicate Reachable(s: Session)
  {
    && 0 <= s.score <= WIN_SCORE && s.score % DROP_POINTS == 0
    && s.level == LevelFor(s.score)
    && !s.pendingLevelUp
    && (s.speed == SpeedFor(START_SPEED, s.level) || s.speed == SpeedFor(RESET_SPEED, s.level))
    && 0 <= s.lives <= MAX_LIVES
    && (s.running ==> !s.factCard && !s.ctaCard && !s.gameOverCard && 0 < s.lives && s.score < WIN_SCORE)
    && (s.factCard ==> !s.ctaCard && !s.gameOverCard && 0 < s.lives && s.score < WIN_SCORE)
  }

  /** The positive multiples of 45 and of 60 up to 180 that a reachable score can hit. */
  lemma {:induction false} Checkpoints(n: int)
    requires 0 < n <= WIN_SCORE && n % DROP_POINTS == 0
    ensures n % FACT_EVERY == 0 <==> n == 45 || n == 90 || n == 135 || n == 180
    ensures n % LEVEL_EVERY == 0 <==> n == 60 || n == 120 || n == 180
  {
    var q45 := n / 45;
    var q60 := n / 60;
    assert n == 45 * q45 + n % 45;
    assert n == 60 * q60 + n % 60;
    assert 0 <= q45 <= 4 && 0 <= q60 <= 3;
  }

  /** A pickup in a running reachable session adds exactly 3 points, keeps the
      session reachable, never queues a level-up, and follows the fixed
      schedule: fact cards at 45, 90 and 135, in-place level-ups at 60 and
      120, the win at 180. */
  lemma {:induction false} CollectKeepsReachable(s: Session)
    requires Reachable(s) && s.running
    ensures Collect(s).0.score == s.score + DROP_POINTS
    ensures Reachable(Collect(s).0)
    ensures !Collect(s).0.pendingLevelUp
    ensures Collect(s).1 == Won <==> s.score + DROP_POINTS == WIN_SCORE
    ensures Collect(s).1 == FactShown <==> s.score + DROP_POINTS in {45, 90, 135}
    ensures Collect(s).1 == LeveledUp <==> s.score + DROP_POINTS in {60, 120}
    ensures Collect(s).0.running <==> Collect(s).1 in {Continue, LeveledUp}
  {
    var n := s.score + DROP_POINTS;
    Checkpoints(n);
    var q := s.score / LEVEL_EVERY;
    assert s.score == 60 * q + s.score % 60;
    assert n / LEVEL_EVERY == (if n % LEVEL_EVERY == 0 then q + 1 else q);
  }

  /** Closing the fact card of a reachable session resumes it reachable, on the
      same level and at the same speed: the loop never queues a level-up. */
  lemma HideFactKeepsReachable(s: Session)
    requires Reachable(s) && s.factCard
    ensures Reachable(HideFact(s))
    ensures HideFact(s).running && !HideFact(s).factCard
    ensures HideFact(s).level == s.level && HideFact(s).speed == s.speed
  {
  }

  /** When a pickup lands on a positive multiple of both 45 and 60 other than
      180 below level 3, the fact card wins and the level-up waits for the
      card to close, where it adds one level and 1.5 speed. */
  lemma TieBreakDefersLevelUp(s: Session)
    requires s.running && !s.factCard && s.level < MAX_LEVEL
    requires s.score + DROP_POINTS > 0 && (s.score + DROP_POINTS) % 180 == 0
    requires s.score + DROP_POINTS != WIN_SCORE
    ensures Collect(s).1 == FactShown
    ensures Collect(s).0.pendingLevelUp && Collect(s).0.level == s.level
    ensures Collect(s).0.factCard && !Collect(s).0.running
    ensures HideFact(Collect(s).0).level == s.level + 1
    ensures HideFact(Collect(s).0).speed == s.speed + CARD_SPEEDUP
    ensures HideFact(Collect(s).0).running && !HideFact(Collect(s).0).pendingLevelUp
  {
  }

  /** Losing a life from a running reachable session keeps it reachable; the
      game is over exactly when the last life went. */
  lemma LoseLifeKeepsReachable(s: Session)
    requires Reachable(s) && s.running
    ensures Reachable(LoseLife(s))
    ensures LoseLife(s).lives == s.lives - 1
    ensures LoseLife(s).gameOverCard <==> s.lives == 1
    ensures LoseLife(s).running <==> s.lives > 1
    ensures LoseLife(s).score == s.score && LoseLife(s).level == s.level && LoseLife(s).speed == s.speed
  {
  }

  lemma StartIsReachable(s: Session)
    requires Reachable(s)
    ensures Reachable(Start(s)) && Reachable(Landed(Start(s)))
    ensures Landed(Start(s)).running && Landed(Start(s)).lives == MAX_LIVES
  {
  }

  lemma ResetGameKeepsReachable(s: Session)
    requires Reachable(s)
    ensures Reachable(ResetGame(s))
  {
  }

  /** `n` consecutive hits on rocks, each one losing a life. */
  function Hits(s: Session, n: nat): (r: Session)
  {
    if n == 0 then s else LoseLife(Hits(s, n - 1))
  }

  /** From a running session, n hits with n at most the lives left cost
      exactly n lives, and the game stops exactly at the last life. */
  lemma {:induction false} HitsCountDown(s: Session, n: nat)
    requires s.running && !s.gameOverCard && 0 < s.lives && n <= s.lives
    ensures Hits(s, n).lives == s.lives - n
    ensures Hits(s, n).running <==> n < s.lives
    ensures Hits(s, n).gameOverCard <==> n == s.lives
    ensures Hits(s, n).score == s.score && Hits(s, n).level == s.level
  {
    if n > 0 {
      HitsCountDown(s, n - 1);
    }
  }

  /** Five hits after a start end the game with no lives left; four do not. */
  lemma FiveHitsEndTheGame(s: Session)
    ensures Hits(Landed(Start(s)), 4).running && Hits(Landed(Start(s)), 4).lives == 1
    ensures Hits(Landed(Start(s)), 5).gameOverCard && !Hits(Landed(Start(s)), 5).running
    ensures Hits(Landed(Start(s)), 5).lives == 0
  {
    HitsCountDown(Landed(Start(s)), 4);
    HitsCountDown(Landed(Start(s)), 5);
  }

  /** `n` consecutive pickups with nothing in between. */
  function Collects(s: Session, n: nat): (r: Session)
  {
    if n == 0 then s else Collect(Collects(s, n - 1)).0
  }

  /** Below the first fact card a pickup only adds score. */
  lemma CollectBelowFirstCard(t: Session)
    requires 0 <= t.score < FACT_EVERY - DROP_POINTS
    ensures Collect(t) == (t.(score := t.score + DROP_POINTS), Continue)
  {
    var n := t.score + DROP_POINTS;
    assert 0 < n < FACT_EVERY;
    assert n % FACT_EVERY == n && n % LEVEL_EVERY == n;
  }

  /** The first 14 pickups after a start only add score. */
  lemma {:induction false} EarlyPickupsOnlyScore(s: Session, n: nat)
    requires n <= 14
    ensures Collects(Landed(Start(s)), n) == Landed(Start(s)).(score := DROP_POINTS * n)
  {
    if n > 0 {
      EarlyPickupsOnlyScore(s, n - 1);
      CollectBelowFirstCard(Collects(Landed(Start(s)), n - 1));
    }
  }

  /** A pickup from 42 on level 1 reaches 45 and shows a fact card with no
      level-up queued, since 45 is not a multiple of 60. */
  lemma PickupAt42ShowsPlainCard(t: Session)
    requires t.score == 42 && t.level == 1 && !t.factCard && !t.pendingLevelUp
    ensures Collect(t).1 == FactShown && Collect(t).0.score == 45
    ensures Collect(t).0.factCard && !Collect(t).0.pendingLevelUp
    ensures HideFact(Collect(t).0).level == 1 && HideFact(Collect(t).0).running
  {
    assert 45 % FACT_EVERY == 0 && 45 % LEVEL_EVERY != 0;
  }

  /** The fifteenth pickup after a start from a reachable session reaches 45
      and shows the first fact card with no level-up queued, so closing it
      resumes on level 1. */
  lemma FirstFactCardHasNoLevelUp(s: Session)
    requires Reachable(s)
    ensures Collect(Collects(Landed(Start(s)), 14)).1 == FactShown
    ensures Collects(Landed(Start(s)), 15).score == 45
    ensures Collects(Landed(Start(s)), 15).factCard && !Collects(Landed(Start(s)), 15).pendingLevelUp
    ensures HideFact(Collects(Landed(Start(s)), 15)).level == 1
    ensures HideFact(Collects(Landed(Start(s)), 15)).running
  {
    EarlyPickupsOnlyScore(s, 14);
    PickupAt42ShowsPlainCard(Collects(Landed(Start(s)), 14));
  }
}
