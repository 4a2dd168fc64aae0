# Droplet runner: a Dafny model of the game-state core

The game is a browser side-scroller. A ball sits at a fixed horizontal
position on the ground. Rocks and water droplets scroll towards it from the
right. The player makes the ball jump over rocks. Every droplet the ball
touches adds 3 points.

- A fact card about clean water appears at every multiple of 45 points.
- The level rises at multiples of 60, and each level is faster.
- The win card appears at exactly 180 points.
- Each rock hit costs one of five lives; losing the last one shows the
  game-over card.

The whole game lives in `script.js`. This project models its state core:
- the overlap tests;
- the level layout (two rocks and five droplets placed by bounded rejection
  sampling);
- the game-loop frame (scrolling, recycling what leaves the screen, jump
  physics, rock hits, droplet pickups);
- the fact cycle;
- the card and life transitions;
- the fall-in animation;
- the start, jump, close-fact, replay and restart handlers.

The project has six modules:
- `Geometry`: the strict box and interval overlap predicates.
- `Physics`: one integration step of the ball, frame sequences, and the
  closed forms of the jump and of the fall-in.
- `Progression`: the session (score, level, speed, lives and the five flags)
  as a record, and one function per transition. These functions are the
  specification the game object is proved against. The predicate
  `Reachable` holds the invariant every handler keeps.
- `Facts`: the four facts, the filter of the facts not yet used, and
  `Pick`, the index one random sample selects, and `NextFact`, the fact a
  sample picks after a given used list.
- `Layout`: rocks, droplets and the scaled constants. It also holds a
  generic bounded do-while sampler, the placement of a new level, and the
  respawn of a rock or droplet that left the screen.
- `Game`: class `Game`, with the script's globals as fields:
  - the two arrays `obstacles` and `droplets`, updated in place;
  - the session record;
  - the ball fields;
  - the used facts;
  - a stream `random` of samples in [0, 1) standing for `Math.random`, with
    a cursor `draws`.

  Each function or event handler of the script that changes state is a
  method of the class. Its `ensures` ties the new session to the
  `Progression` functions, and the new ball, rocks and droplets to the
  `Physics` and `Layout` definitions. A frame's droplet pickups are
  described by `WalkFrom`, the walk over the frame's droplets that applies
  `Progression.Collect` once per touched droplet; a frame's move is
  described by `Moved`. What the walk does to the rest of the state is
  `WalkKeeps`, a relation between two `Snapshot` values. Each snapshot holds
  the level, the fact card, the arrays, the ground, the ball's speed and
  jump flag, the cursor and the used facts.

Quirks of the code that the model keeps as written:
- The start button sets speed 5.0. The initial declaration and the
  game-over restart set 5.5.
- A level-up deferred to the fact card adds 1.5 to the speed. One inside the
  game loop adds 1.7.
- At a level reset the rock–droplet test is a plain overlap with no gap.
  The reset's `minDropGap` and `minRockDropGap` are never used.
- The droplet pickup walks the droplet array the frame started with, even
  after a level-up has replaced it (`Game.Game.CollectTouched` takes that
  array as a parameter).
- A rock that respawns is tested against the other rocks as the loop sees
  them: rocks before it already moved this frame, rocks after it not yet.
- A droplet that finds no spot in 10 tries stays where the scroll moved it.
  It keeps its `collected` flag.

Two places where a plain reading of the game's rules and the code disagree;
the model follows the code:
- The loop never sets `pendingLevelUp` in reachable play. The score is
  always a multiple of 3, so the only common multiple of 45 and 60 it can
  reach is 180, and 180 is the win, which is tested first
  (`Progression.CollectKeepsReachable`). In particular the first fact card,
  at 45 points, queues no level-up (`Progression.FirstFactCardHasNoLevelUp`).
- At a level reset a droplet only has to avoid overlapping a rock. No gap
  is demanded (`Layout.NewLevelDroplets`).

## Model

| member | source | states |
|---|---|---|
| Geometry.Collides | script.js:986-988 | two boxes collide exactly when their intervals overlap on the x axis and on the y axis |
| Geometry.DropletsOverlap | script.js:990-992 | the droplet test is exactly the plain interval overlap test |
| Geometry.BoxesOverlap | script.js:994-996 | the plain interval test is the buffered test with a buffer of 0 |
| Geometry.BoxesOverlapWithBuffer | script.js:998-1000 | two intervals are clear of each other with a buffer exactly when one ends at least the buffer before the other begins |
| Geometry.CollidesSymmetric | script.js:986-988 | a collision does not depend on which box is named first |
| Geometry.TouchingBoxesDoNotCollide | script.js:986-988 | boxes that only share an edge do not collide, because every comparison is strict |
| Geometry.OverlapSymmetric | script.js:994-1000 | interval overlap, with or without a buffer, does not depend on which interval is named first |
| Geometry.OverlapIffCommonPoint | script.js:994-996 | for positive widths, the overlap test holds exactly when the open intervals share a point |
| Geometry.CollidesIffCommonPoint | script.js:986-988 | for positive sizes, a collision holds exactly when the open boxes share a point |
| Physics.Step | script.js:1107-1116 | one frame of jump physics: the ball lands exactly when position plus velocity plus gravity reaches the ground, and then it is clamped to the ground at rest with the jump ended; otherwise gravity goes into the velocity and the velocity into the position. The result is never below the ground, and it is airborne exactly when it is above the ground |
| Physics.Frames | script.js:1107-1116 | over any number of frames a ball at rest does not move, a ball in the air after them was in the air before, and a ball that was in the air and has landed rests on the ground with velocity 0 |
| Physics.FramesStayAboveGround | script.js:1107-1116 | a ball that starts at or above the ground stays there after any number of frames |
| Physics.JumpArc | script.js:583-584 | closed form of a jump from the ground: after n <= 58 frames the ball is 15n - n(n+1)/4 above the ground, moving at -15 + n/2, still airborne |
| Physics.JumpLandsAfter59Frames | script.js:1107-1116 | a jump with velocity -15 and gravity 0.5 is airborne on frames 1 to 58 and lands exactly on the ground, at rest, on frame 59 |
| Physics.FallArc | script.js:1210-1213 | while the fall-in is still airborne after n frames, the ball has dropped n(n+1)/4 from rest |
| Physics.FallInLands | script.js:1210-1222 | the fall-in always ends: after any n frames with n squared at least four times the drop, the ball rests on the ground |
| Physics.LandedStaysLanded | script.js:1214-1217 | once the fall-in has landed, the ball is on the ground with velocity 0 |
| Progression.Initial | script.js:523-544 | the declared session is reachable, with the game stopped and every card hidden |
| Progression.ShowFact | script.js:688-694 | the fact card shows and the game stops; score, level, speed, lives, the queued level-up and the other cards stay as they were |
| Progression.HideFact | script.js:696-711 | the fact card hides and the game runs; a queued level-up is applied (one level, 1.5 speed) and cleared, otherwise level and speed stay; score, lives and the other cards stay as they were |
| Progression.ShowCta | script.js:713-718 | the win card shows and the game stops; the counters and the other cards stay as they were |
| Progression.HideCta | script.js:864-867 | the win card hides; running, the counters and the other cards stay as they were |
| Progression.ShowGameOver | script.js:938-942 | the game-over card shows and the game stops; the counters and the other cards stay as they were |
| Progression.HideGameOver | script.js:944-947 | the game-over card hides; running, the counters and the other cards stay as they were |
| Progression.LoseLife | script.js:924-936 | one life less; the game-over card shows and the game stops exactly when the last life went; score, level, speed and the other cards stay as they were |
| Progression.ResetGame | script.js:949-959 | score 0, level 1, speed 5.5, five lives and the game-over card hidden; running and the other cards stay as they were |
| Progression.Start | script.js:1228-1250 | score 0, level 1, speed 5.0, five lives and every card hidden; running stays as it was |
| Progression.Landed | script.js:1214-1222 | the game runs; everything else stays as it was |
| Progression.Collect | script.js:1143-1190 | a pickup adds 3 points and keeps the lives. It is the win exactly when the new score is 180, with the win card shown and the game stopped. A fact card stops the game on the same level; an in-place level-up adds one level and 1.7 speed; otherwise only the score changes |
| Progression.LevelFor | script.js:1182-1190 | the level of a reachable score is between 1 and 3, and below 180 it is the one whose 60-point band holds the score |
| Progression.Checkpoints | script.js:1172-1182 | for a positive multiple of 3 up to 180, a multiple of 45 is one of 45, 90, 135 or 180, and a multiple of 60 is one of 60, 120 or 180 |
| Progression.CollectKeepsReachable | script.js:1145-1190 | a pickup in a running reachable session adds exactly 3 points and stays reachable. It never queues a level-up. It wins exactly at 180, shows a fact card exactly at 45, 90 and 135, and levels up in place exactly at 60 and 120. The game keeps running exactly when neither a card nor the win came up |
| Progression.HideFactKeepsReachable | script.js:696-711 | closing the fact card of a reachable session resumes the game, keeps it reachable, and leaves level and speed as they were |
| Progression.TieBreakDefersLevelUp | script.js:1172-1180 | on a positive multiple of 180 other than 180 itself, below level 3, the fact card wins and the level-up is queued. Closing the card then adds one level and 1.5 speed and clears the queue |
| Progression.LoseLifeKeepsReachable | script.js:924-942 | losing a life from a running reachable session removes exactly one life and keeps the session reachable. The game-over card shows exactly when the last life went, and score, level and speed do not change |
| Progression.StartIsReachable | script.js:1228-1250 | the start button leads to a reachable session, and the landing of the fall-in to a running one with five lives |
| Progression.ResetGameKeepsReachable | script.js:949-959 | the restart of the game-over card leads to a reachable session |
| Progression.HitsCountDown | script.js:924-936 | n rock hits with n at most the lives left cost exactly n lives and leave score and level alone. The game keeps running exactly while lives remain, and the game-over card shows exactly at the last |
| Progression.FiveHitsEndTheGame | script.js:1238 | after a start, four hits leave the game running with one life, and the fifth ends it with none |
| Progression.CollectBelowFirstCard | script.js:1145-1190 | below 42 points a pickup only adds 3 points |
| Progression.EarlyPickupsOnlyScore | script.js:1235-1237 | the first 14 pickups after a start only add score |
| Progression.PickupAt42ShowsPlainCard | script.js:1172-1180 | a pickup from 42 on level 1 shows a fact card at 45 with no level-up queued, and closing it resumes on level 1 |
| Progression.FirstFactCardHasNoLevelUp | script.js:1172-1180 | after a start, the 15th pickup shows the first fact card at 45 with no level-up queued, and closing it resumes on level 1 |
| Facts.Available | script.js:682 | the facts still available are exactly the facts of the list that are not used |
| Facts.NextFact | script.js:680-684 | the fact a sample picks after a used list comes from the fact list and is not in the current cycle (the used list, or nothing once every fact was used), and recording it keeps the used list free of repeats and within the list |
| Facts.Pick | script.js:683 | a sample in [0, 1) scaled by n and rounded down is a valid index below n |
| Facts.FactsDistinct | script.js:531-536 | the four facts are distinct |
| Facts.AvailableNonEmpty | script.js:681-683 | while a cycle is incomplete, at least one fact is available |
| Facts.RecordKeepsUsedOk | script.js:684 | recording an unused fact of the list keeps the used list free of repeats and within the list |
| Facts.FullCycleShowsEveryFact | script.js:681 | when the used list is as long as the fact list, every fact has been shown, so the cycle restarts only then |
| Layout.Sample | script.js:611-627 | a do-while rejection sampler. It makes between 1 and cap tries and returns the candidate of the last sample read. That candidate passes the test exactly when the result says it is valid, every earlier candidate failed, and an invalid result means all cap tries were used |
| Layout.DrawRock | script.js:609-633 | one reset rock, drawn as RockDrawn says: at most 30 tries, x the candidate of the last sample read beyond the anchor, every earlier candidate too close to a rock placed before it, and a candidate that is too close only when all 30 tries were used |
| Layout.DrawnRockIsPlaced | script.js:609-633 | a rock drawn from samples in [0, 1) is on the ground with rock size, at least the rock gap and less than the gap plus half a canvas beyond its anchor, and, if found in fewer than 30 tries, spaced from every rock placed before it |
| Layout.PlaceRocks | script.js:604-635 | exactly two rocks, each drawn as DrawRock does from where the one before stopped reading the stream and anchored on it (the first 100 pixels past the right edge), and so laid out as DrawnRocksAreLaidOut says. The number of samples used is the sum of the tries |
| Layout.DrawnRocksAreLaidOut | script.js:604-635 | rocks drawn from samples in [0, 1) each lie on the ground in the span beyond their anchor, and each found in fewer than 30 tries keeps the rock gap from the rocks before it |
| Layout.DrawDroplet | script.js:644-676 | one reset droplet, drawn as DropletDrawn says: at most 40 tries, uncollected, x the candidate of the last sample read, every earlier candidate overlapping a rock or too close to a droplet placed before it, and a failing candidate only when all 40 tries were used |
| Layout.PlaceDroplets | script.js:638-677 | exactly five droplets, each drawn as DrawDroplet does from where the one before stopped, and so laid out as DrawnDropletsAreLaidOut says. The number of samples used is the sum of the tries |
| Layout.DrawnDropletsAreLaidOut | script.js:638-677 | droplets drawn from samples in [0, 1) are uncollected, at droplet height and size, in [width + 100, 1.7 width + 100), and each found in fewer than 40 tries overlaps no rock (plain overlap) and keeps the buffer from the droplets before it |
| Layout.PlaceLevel | script.js:589-678 | a new level: the rocks drawn from the stream at the cursor, then the droplets drawn from where the rocks stopped against those rocks; the cursor ends after the last sample read |
| Layout.RespawnAnchor | script.js:1021-1031 | the respawn anchor is the largest of the canvas width, the other rocks' x and the uncollected droplets' x |
| Layout.RespawnAnchorUnique | script.js:1021-1031 | the anchor is uniquely determined by its candidates |
| Layout.RespawnedRockLeadsTheScene | script.js:1032 | a rock placed at least the gap beyond the anchor is off the right edge, and at least the gap to the right of every other rock and every uncollected droplet |
| Layout.RespawnRock | script.js:1018-1061 | a leaving rock always gets a new x in at most 30 tries: the candidate of the last sample read, at least the rock gap and less than the gap plus half a canvas beyond the anchor. Every earlier candidate failed the test (the 60-pixel gap from every uncollected droplet and the rock gap from every other rock, both with the rock's own width), and a failing x means all 30 tries were used |
| Layout.RespawnDroplet | script.js:1071-1095 | at most 10 tries for a spot in [width, 1.5 width): the spot is the candidate of the last sample read and every earlier candidate failed. It is reported valid exactly when it overlaps no rock and keeps the buffer from the other uncollected droplets; an invalid result means all 10 candidates failed |
| Game.AnyRockHit | script.js:1122-1125 | a hit is found exactly when some rock collides with the ball's box |
| Game.Visit | script.js:1140-1190 | a stopped walk visits nothing; otherwise droplet i is taken exactly when it touches the ball's box uncollected |
| Game.WalkFrom | script.js:1140-1192 | every droplet the walk takes is one of the droplets walked |
| Game.WalkIsCollects | script.js:1140-1190 | the walk's session is the start session after one Progression.Collect per taken droplet |
| Game.WalkTakesTouched | script.js:1140-1146 | droplet i is taken exactly when, at the moment the walk reaches it, the walk has not stopped, it is uncollected and it touches the ball's box at the ball's height of that moment |
| Game.WalkStopsForGood | script.js:1165-1180 | once the win or a fact card stops the walk, the droplets after it change nothing |
| Game.WalkKeepsReachable | script.js:1140-1190 | a walk from a running reachable session scores exactly 3 per taken droplet, keeps the lives and reachability, stops exactly when the game stops, and moves the ball to the ground exactly on a level-up |
| Game.VisitKeepsReachable | script.js:1143-1190 | one step of the walk keeps reachability and the lives, scores 3 exactly when it takes the droplet, and moves the ball to the ground exactly on a level-up |
| Game.Game.constructor | script.js:523-544 | the declared state: score 0, level 1, speed 5.5, five lives, every flag false, ground at 228, no rocks, droplets or used facts; it is valid |
| Game.Game.ResetLevel | script.js:589-678 | the ground moves to its scaled level and the ball rests on it. New arrays hold a new level drawn from the stream at the cursor, as PlaceLevel says. The session is unchanged |
| Game.Game.LayOut | script.js:604-677 | new arrays hold the rocks and droplets of a new level drawn from the stream at the cursor, and the cursor moves past the samples used |
| Game.Game.LevelUp | script.js:700-707 | one level up: level + 1, speed + the given boost, the ball at rest on the ground, and new arrays holding a new level |
| Game.Game.RandomFact | script.js:680-686 | the used list restarts exactly when every fact was used (Facts.Cycle). The fact returned is Facts.NextFact of the old used list and the sample at the cursor, it is appended to the cycle, and the cursor moves by exactly one |
| Game.Game.ShowFact | script.js:688-694 | the card shows the fact RandomFact picks, recorded as RandomFact records it with exactly one sample consumed, and the session becomes Progression.ShowFact of the old one (card on, game paused) |
| Game.Game.HideFact | script.js:696-711 | the session becomes Progression.HideFact of the old one and stays reachable. A new level is laid out exactly when a level-up was queued, otherwise arrays and ball are untouched. The next frame is scheduled |
| Game.Game.ShowCta | script.js:713-718 | the session becomes Progression.ShowCta of the old one: win card on, game paused |
| Game.Game.HideCta | script.js:864-867 | the session becomes Progression.HideCta of the old one: win card off |
| Game.Game.Replay | script.js:1273-1277 | the replay button hides the win card and keeps the game valid |
| Game.Game.ShowGameOver | script.js:938-942 | the session becomes Progression.ShowGameOver of the old one: game stopped, game-over card on |
| Game.Game.HideGameOver | script.js:944-947 | the session becomes Progression.HideGameOver of the old one |
| Game.Game.LoseLife | script.js:924-936 | the session becomes Progression.LoseLife of the old one; the result says the game is over exactly when no lives remain |
| Game.Game.ResetGame | script.js:949-959 | the session becomes Progression.ResetGame of the old one (five lives, score 0, level 1, speed 5.5, card off), a new level is laid out with the ball at rest on the ground, and the game stays valid |
| Game.Game.StartBallFallIn | script.js:1201-1208 | the ball rests 60 scaled pixels above the canvas, the fall-in starts, no jump is under way, and a fall-in frame is scheduled |
| Game.Game.ResetCounters | script.js:1231-1238 | score 0, level 1, speed 5.0, five lives, the win and game-over cards hidden, and the used facts cleared; nothing else of the session changes |
| Game.Game.Start | script.js:1228-1250 | the session becomes Progression.Start of the old one (speed 5.0). The used facts are cleared, a new level is laid out, the ball starts falling in, and the game stays valid |
| Game.Game.FallInStep | script.js:1210-1225 | outside the fall-in nothing happens. Otherwise the ball takes one Physics.Step. On landing the session becomes Progression.Landed of the old one and a loop frame is scheduled; in the air another fall-in frame is scheduled |
| Game.Game.Jump | script.js:1252-1258 | a jump starts, with velocity -15, exactly when the game runs, no jump is under way and the ball is not falling in; otherwise nothing changes |
| Game.Game.MoveBall | script.js:1107-1116 | a jumping ball takes exactly one Physics.Step; a grounded one does not move; the ball stays valid |
| Game.Game.MoveRock | script.js:1013-1061 | rock i, and no other, moves as RockAdvanced says against the rocks as they are, reading exactly its tries from the stream |
| Game.Game.ScrollRocks | script.js:1013-1063 | every rock advances as RockAdvanced says: left by the speed, and when it leaves the screen respawned as RespawnRock says, against the rocks before it already moved and the rocks after it not yet moved. The rocks read the stream one after the other, from the old cursor to the new one |
| Game.Game.MoveDroplet | script.js:1066-1101 | droplet i, and no other, moves as DropletAdvanced says against the droplets as they are, reading exactly its tries from the stream |
| Game.Game.ScrollDroplets | script.js:1066-1104 | every droplet advances as DropletAdvanced says: left by the speed; off screen, it takes the first good one of its 10 candidates and is uncollected again, or stays where it moved when all 10 failed. The droplets read the stream one after the other |
| Game.Game.Scroll | script.js:1013-1104 | the rocks scroll against the old droplets, then the droplets against the moved rocks, reading the stream in that order |
| Game.Game.Advance | script.js:1013-1116 | the frame's move is Moved of the old rocks, droplets and ball: rocks, then droplets, then one Physics.Step of a jumping ball; the game stays valid |
| Game.Game.QueueFact | script.js:1172-1180 | the level-up is queued exactly when the score is also a multiple of 60 below level 3, then the fact card shows: the used list becomes the cycle with Facts.NextFact of the sample at the cursor appended, and exactly one sample is consumed |
| Game.Game.CollectDroplet | script.js:1143-1190 | the session becomes Progression.Collect of the old one and the outcome is the one Collect names. Exactly on an in-place level-up a new level is laid out from the cursor with the ball at rest; otherwise the arrays, ground and ball stay. On a fact card the used list gets the fact Facts.NextFact picks with the sample at the cursor and one sample is consumed; on the win or a plain pickup the used list and the cursor stay |
| Game.Game.Take | script.js:1143-1190 | droplet i, and no other, is marked collected. The session and outcome are those of CollectDroplet, with the same per-outcome effects on the layout, the ball, the used facts and the cursor, and the falling-in flag stays. The new state is related to the old one by WalkKeeps |
| Game.Game.VisitDroplet | script.js:1140-1190 | one droplet of the walk: the session, ball height and stopping flag become those of Visit, and the droplet is marked collected exactly when the walk takes it. An untouched droplet leaves the game object unchanged. Otherwise WalkKeeps holds: on the same level the arrays, ground, ball speed and jump flag stay and the cursor moves only for a fact card; a level-up lays out a new level from the cursor with the ball at rest; a fact card records the fact the last sample picks; without one the used facts stay |
| Game.Game.CollectTouched | script.js:1140-1192 | walking the frame's droplet array, the session, ball height and stopping flag are those of WalkFrom over the whole array, and exactly the droplets the walk takes are marked collected. WalkKeeps holds from the start of the walk to its end, and the arrays are new exactly on a level-up. The falling-in flag stays |
| Game.Game.Gather | script.js:1140-1192 | the pickups of a frame with no rock hit: the session and ball height are those of WalkFrom, the score grows by 3 per taken droplet, the lives stay, exactly the taken droplets are marked collected, and the loop stops exactly when the game stops. WalkKeeps holds from the old state, and the falling-in flag stays |
| Game.Game.Crash | script.js:1122-1137 | a rock hit: the session becomes Progression.LoseLife of the old one, and the used facts and the falling-in flag stay. With no life left the arrays, ground, cursor and ball (height, speed, jump flag) stay. Otherwise a new level is laid out from the cursor with the ball at rest on the ground |
| Game.Game.Resolve | script.js:1118-1192 | after the move, a hit is found exactly when some rock collides with the ball's box. A hit goes as Crash says and keeps the used facts. No hit goes as Gather says, with WalkKeeps from the old state and the rocks' contents kept on the same level. The falling-in flag stays, and another frame is scheduled exactly when the game still runs |
| Game.Game.Tick | script.js:1003-1198 | a frame changes nothing unless the game runs and the ball is not falling in. Otherwise the move is Moved of the old state, and a hit is a rock colliding with the moved ball's box. A hit costs exactly one life as Progression.LoseLife says and keeps the used facts; with no life left the moved rocks, droplets, ball and cursor stay. No hit gives the session, ball height and marked droplets of WalkFrom over the moved droplets, with WalkKeeps from the moved state (the frame's ball and cursor). The falling-in flag stays, and another frame is scheduled exactly when the game still runs |

## Left out

- Sound (the Web Audio sound system and every sound call) is not modelled.
  Neither are drawing, the background animation, the confetti and canvas
  resizing: they are rendering only. The canvas size is a constant of the
  game object.
- The random draws that the confetti animation takes are not modelled. The
  stream `random` stands only for the samples the game state uses.
- Score, level, lives, progress-bar and "Let's go" displays, the `hidden`
  class toggles of the cards and of the start button, and the learn-more and
  donate links are DOM output and are left out.
- `requestAnimationFrame` and event-listener wiring are left out: frames
  and handlers are explicit method calls. A scheduled frame is the returned
  `Scheduled` value.
- `Math.random` is a stream of samples, each only assumed to lie in [0, 1);
  its distribution is not modelled.
- The `Date.now` drop combo only selects which sound plays and is left out.
- Positions, speeds and the width/805 scale factors are exact reals. The
  model makes no claim about double-precision rounding.
- The respawn anchor of a rock is computed once per respawn rather than on
  every try. Nothing it reads changes between tries, so the anchor is the
  same value.
- Game.Game.HideFact: requires the fact card to be showing, because its
  only caller is the close button on that card. The model does not cover a
  call with the card hidden.
- Game.Game.Tick: after a level-up inside the frame's droplet walk, the
  contract states that the arrays are new, the ground is at the level's
  height, the ball is at rest and the cursor has not gone back. It does not
  restate the new level's layout, which Game.Game.ResetLevel and
  Game.Game.VisitDroplet state for the step that lays it out, because a
  fact card later in the same walk moves the cursor past the layout's end.
  The same holds for Game.Game.Gather, Game.Game.Resolve and
  Game.Game.CollectTouched.
