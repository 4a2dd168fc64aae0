/**
  Rocks and droplets, the layout constants (all scaled by the canvas width
  over the 805-pixel design width), the spacing tests, and the bounded
  rejection sampling that places a new level's rocks and droplets.
  Math.random is a stream `random` of samples in [0, 1); a placement that
  starts reading the stream at `from` reports how many samples it used.
 */
module Layout {
  import opened Geometry

  /** An obstacle: position and size. */
  datatype Rock = Rock(x: real, y: real, w: real, h: real)
  /** A collectible: position, size and whether it has been picked up. */
  datatype Droplet = Droplet(x: real, y: real, w: real, h: real, collected: bool)

  const ROCK_COUNT := 2
  const DROPLET_COUNT := 5
  /** Caps of the rejection-sampling loops. */
  const ROCK_RESET_TRIES := 30
  const DROPLET_RESET_TRIES := 40
  const ROCK_RESPAWN_TRIES := 30
  const DROPLET_RESPAWN_TRIES := 10

  const DESIGN_WIDTH: real := 805.0
  const BALL_RADIUS: real := 22.0

  /** A length of `k` design pixels on a canvas `width` pixels wide. */
  function Scaled(k: real, width: real): (r: real)
  {
    k * (width / DESIGN_WIDTH)
  }

  /** Ground level as the level reset computes it. */
  function GroundLevel(width: real): (r: real)
  {
    244.0 + 30.0 - Scaled(60.0, width)
  }

  function RockWidth(width: real): (r: real) { Scaled(52.0, width) }
  function RockHeight(width: real): (r: real) { Scaled(54.0, width) }
  function DropWidth(width: real): (r: real) { Scaled(22.0, width) }
  function DropHeight(width: real): (r: real) { Scaled(35.0, width) }
  /** Least gap between two rocks. */
  function MinRockGap(width: real): (r: real) { Scaled(220.0, width) }
  /** Buffer between two droplets. */
  function MinDropBuffer(width: real): (r: real) { Scaled(60.0, width) }
  /** Least gap between a respawned rock and a droplet. */
  function RespawnRockDropGap(width: real): (r: real) { Scaled(60.0, width) }
  /** Vertical position of a new droplet. */
  function DropY(groundY: real, width: real): (r: real)
  {
    groundY + Scaled(BALL_RADIUS, width) / 2.0 - DropHeight(width) / 2.0
  }

  /** Every sample of the stream lies in [0, 1). */
  ghost predicate InUnit(random: nat -> real)
  {
    forall k: nat :: 0.0 <= random(k) < 1.0
  }

  /** A candidate rock at `x` of width `w` keeps at least `gap` away from every
      rock of `rocks` except the one at index `skip` (-1 when none is skipped).
      The other rock's extent is measured with `w`, as the script does. */
  predicate RockSpaced(x: real, w: real, rocks: seq<Rock>, skip: int, gap: real)
  {
    forall j :: 0 <= j < |rocks| && j != skip ==>
      !(x < rocks[j].x + w + gap && x + w > rocks[j].x - gap)
  }

  /** An interval at `x` of width `w` overlaps no rock. */
  predicate MissesRocks(x: real, w: real, rocks: seq<Rock>)
  {
    forall j :: 0 <= j < |rocks| ==> !BoxesOverlap(x, w, rocks[j].x, rocks[j].w)
  }

  /** A new droplet keeps `buffer` away from every droplet placed before it. */
  predicate ClearOfPlacedDroplets(x: real, w: real, drops: seq<Droplet>, buffer: real)
  {
    forall j :: 0 <= j < |drops| ==> !BoxesOverlapWithBuffer(x, w, drops[j].x, drops[j].w, buffer)
  }

  /** A respawned droplet keeps `buffer` away from every uncollected droplet
      other than itself (index `skip`). */
  predicate ClearOfLiveDroplets(x: real, w: real, drops: seq<Droplet>, skip: int, buffer: real)
  {
    forall j :: 0 <= j < |drops| && j != skip ==>
      !(!drops[j].collected && BoxesOverlapWithBuffer(x, w, drops[j].x, drops[j].w, buffer))
  }

  /** A respawned rock keeps `gap` away from every uncollected droplet. */
  predicate RockClearOfDroplets(x: real, w: real, drops: seq<Droplet>, gap: real)
  {
    forall j :: 0 <= j < |drops| ==>
      !(!drops[j].collected && x < drops[j].x + drops[j].w + gap && x + w > drops[j].x - gap)
  }

  /** A point drawn `r` in [0, 1) of the way along a positive span past
      `base` lies in [base, base + span). */
  lemma SampleInSpan(x: real, base: real, r: real, span: real)
    requires 0.0 <= r < 1.0 && span > 0.0
    requires x == base + r * span
    ensures base <= x < base + span
  {
    assert x - base == r * span;
    assert span - r * span == (1.0 - r) * span;
    assert (1.0 - r) * span > 0.0;
    assert r * span >= 0.0;
  }

  function Sum(s: seq<nat>): (r: nat)
  {
    if s == [] then 0 else s[0] + Sum(s[1..])
  }

  lemma {:induction false} SumAppend(s: seq<nat>, n: nat)
    ensures Sum(s + [n]) == Sum(s) + n
  {
    if s != [] {
      assert (s + [n])[1..] == s[1..] + [n];
      SumAppend(s[1..], n);
    }
  }

  /** A non-empty sequence is its front followed by its last element. */
  lemma SplitLast<T>(s: seq<T>)
    requires |s| > 0
    ensures s == s[..|s| - 1] + [s[|s| - 1]]
  {
  }

  /** Bounded rejection sampling, as a do-while loop: draw a candidate from the
      next sample, test it, and stop at the first valid candidate or after
      `cap` tries. The last candidate is returned whether valid or not, so a
      result that is not valid means every one of the `cap` tries failed. */
  method Sample(random: nat -> real, from: nat, cap: nat,
                candidate: real -> real, ok: real -> bool)
    returns (x: real, valid: bool, tries: nat)
    requires 1 <= cap
    ensures 1 <= tries <= cap
    ensures x == candidate(random(from + tries - 1))
    ensures valid == ok(x)
    ensures !valid ==> tries == cap
    ensures forall k :: from <= k < from + tries - 1 ==> !ok(candidate(random(k)))
  {
    tries := 0;
    valid := false;
    x := 0.0;
    while tries == 0 || (!valid && tries < cap)
      invariant 0 <= tries <= cap
      invariant tries > 0 ==> x == candidate(random(from + tries - 1)) && valid == ok(x)
      invariant forall k :: from <= k < from + tries - 1 ==> !ok(candidate(random(k)))
      invariant tries == 0 ==> !valid
      decreases cap - tries
    {
      x := candidate(random(from + tries));
      valid := ok(x);
      tries := tries + 1;
    }
  }

  /** The position the reset places rock `i` beyond: 100 pixels past the right
      edge for the first rock, the previous rock for the others. */
  function ResetRockAnchor(rocks: seq<Rock>, i: nat, width: real): (r: real)
    requires i <= |rocks|
  {
    if i == 0 then width + 100.0 else rocks[i - 1].x
  }

  /** The x a sample `r` gives a rock placed beyond `anchor`, at a reset and at
      a respawn alike. */
  function RockCandidate(r: real, anchor: real, width: real): (x: real)
  {
    anchor + MinRockGap(width) + r * (width * 0.5)
  }

  /** The x a sample `r` gives a droplet of a new level. */
  function ResetDropletCandidate(r: real, width: real): (x: real)
  {
    width + 100.0 + r * (width * 0.7)
  }

  /** The test a reset rock must pass: the rock gap from every rock placed
      before it. */
  predicate ResetRockOk(x: real, placed: seq<Rock>, width: real)
  {
    RockSpaced(x, RockWidth(width), placed, -1, MinRockGap(width))
  }

  /** The test a reset droplet must pass: no overlap with a rock and the buffer
      from every droplet placed before it. */
  predicate ResetDropletOk(x: real, rocks: seq<Rock>, placed: seq<Droplet>, width: real)
  {
    MissesRocks(x, DropWidth(width), rocks)
    && ClearOfPlacedDroplets(x, DropWidth(width), placed, MinDropBuffer(width))
  }

  /** `rock` is what the reset's do-while gives when it starts reading the
      stream at `from` and makes `n` tries: the candidate of the last sample
      read, after every earlier candidate failed the test, and a failing
      candidate only when all 30 tries were used. */
  ghost predicate RockDrawn(rock: Rock, n: nat, random: nat -> real, from: nat, anchor: real,
                            placed: seq<Rock>, width: real, groundY: real)
  {
    && 1 <= n <= ROCK_RESET_TRIES
    && rock == Rock(RockCandidate(random(from + n - 1), anchor, width), groundY,
                    RockWidth(width), RockHeight(width))
    && (forall k :: from <= k < from + n - 1 ==>
          !ResetRockOk(RockCandidate(random(k), anchor, width), placed, width))
    && (!ResetRockOk(rock.x, placed, width) ==> n == ROCK_RESET_TRIES)
  }

  /** The same for a droplet of a new level and its 40 tries. */
  ghost predicate DropletDrawn(d: Droplet, n: nat, random: nat -> real, from: nat,
                               rocks: seq<Rock>, placed: seq<Droplet>, width: real, groundY: real)
  {
    && 1 <= n <= DROPLET_RESET_TRIES
    && d == Droplet(ResetDropletCandidate(random(from + n - 1), width), DropY(groundY, width),
                    DropWidth(width), DropHeight(width), false)
    && (forall k :: from <= k < from + n - 1 ==>
          !ResetDropletOk(ResetDropletCandidate(random(k), width), rocks, placed, width))
    && (!ResetDropletOk(d.x, rocks, placed, width) ==> n == DROPLET_RESET_TRIES)
  }

  /** Rocks drawn one after the other from the stream: rock i reads the
      stream from where rock i - 1 stopped and is anchored on it. */
  ghost predicate RocksDrawn(rocks: seq<Rock>, tries: seq<nat>, random: nat -> real, from: nat,
                             width: real, groundY: real)
    decreases |rocks|
  {
    |rocks| == |tries|
    && (|rocks| > 0 ==>
          var m := |rocks| - 1;
          RocksDrawn(rocks[..m], tries[..m], random, from, width, groundY)
          && RockDrawn(rocks[m], tries[m], random, from + Sum(tries[..m]),
                       ResetRockAnchor(rocks, m, width), rocks[..m], width, groundY))
  }

  /** Droplets drawn one after the other from the stream, each tested against
      the droplets before it. */
  ghost predicate DropletsDrawn(drops: seq<Droplet>, tries: seq<nat>, random: nat -> real, from: nat,
                                rocks: seq<Rock>, width: real, groundY: real)
    decreases |drops|
  {
    |drops| == |tries|
    && (|drops| > 0 ==>
          var m := |drops| - 1;
          DropletsDrawn(drops[..m], tries[..m], random, from, rocks, width, groundY)
          && DropletDrawn(drops[m], tries[m], random, from + Sum(tries[..m]), rocks, drops[..m],
                          width, groundY))
  }

  /** What the rocks of a reset look like, with the number of tries each
      took: each at ground level, at least the rock gap and less than the gap
      plus half a canvas beyond its anchor, and, when placed in fewer than 30
      tries, spaced from the rocks before it. */
  ghost predicate RocksLaidOut(rocks: seq<Rock>, tries: seq<nat>, width: real, groundY: real)
    requires |rocks| == |tries|
  {
    RocksInSpans(rocks, tries, width, groundY) && RocksApart(rocks, tries, width)
  }

  /** Each rock of a reset on the ground, within its span beyond its anchor. */
  ghost predicate RocksInSpans(rocks: seq<Rock>, tries: seq<nat>, width: real, groundY: real)
    requires |rocks| == |tries|
  {
    && (forall i :: 0 <= i < |rocks| ==> 1 <= tries[i] <= ROCK_RESET_TRIES)
    && (forall i :: 0 <= i < |rocks| ==>
          rocks[i].y == groundY && rocks[i].w == RockWidth(width) && rocks[i].h == RockHeight(width))
    && (forall i :: 0 <= i < |rocks| ==>
          ResetRockAnchor(rocks, i, width) + MinRockGap(width) <= rocks[i].x
          < ResetRockAnchor(rocks, i, width) + MinRockGap(width) + width * 0.5)
  }

  /** Each rock of a reset found in fewer than 30 tries spaced from the rocks
      before it. */
  ghost predicate RocksApart(rocks: seq<Rock>, tries: seq<nat>, width: real)
    requires |rocks| == |tries|
  {
    forall i, j :: 0 <= j < i < |rocks| && tries[i] < ROCK_RESET_TRIES ==>
      !(rocks[i].x < rocks[j].x + RockWidth(width) + MinRockGap(width)
        && rocks[i].x + RockWidth(width) > rocks[j].x - MinRockGap(width))
  }

  /** What the droplets of a reset look like, with the number of tries each
      took: each uncollected, at droplet height, in [width + 100, 1.7 width + 100),
      and, when placed in fewer than 40 tries, clear of every rock and keeping
      the buffer from the droplets before it. */
  ghost predicate DropletsLaidOut(drops: seq<Droplet>, tries: seq<nat>, rocks: seq<Rock>,
                                  width: real, groundY: real)
    requires |drops| == |tries|
  {
    && (forall i :: 0 <= i < |drops| ==> 1 <= tries[i] <= DROPLET_RESET_TRIES)
    && (forall i :: 0 <= i < |drops| ==>
          drops[i].y == DropY(groundY, width) && drops[i].w == DropWidth(width)
          && drops[i].h == DropHeight(width) && !drops[i].collected)
    && (forall i :: 0 <= i < |drops| ==> width + 100.0 <= drops[i].x < width + 100.0 + width * 0.7)
    && (forall i :: 0 <= i < |drops| && tries[i] < DROPLET_RESET_TRIES ==>
          MissesRocks(drops[i].x, DropWidth(width), rocks))
    && (forall i, j :: 0 <= j < i < |drops| && tries[i] < DROPLET_RESET_TRIES ==>
          !BoxesOverlapWithBuffer(drops[i].x, DropWidth(width), drops[j].x, drops[j].w, MinDropBuffer(width)))
  }

  /** Rocks drawn from a stream of samples in [0, 1) are laid out as a reset
      promises. */
  lemma {:induction false} DrawnRocksAreLaidOut(rocks: seq<Rock>, tries: seq<nat>, random: nat -> real,
                                                from: nat, width: real, groundY: real)
    requires InUnit(random) && width > 0.0
    requires RocksDrawn(rocks, tries, random, from, width, groundY)
    ensures RocksLaidOut(rocks, tries, width, groundY)
    decreases |rocks|
  {
    if |rocks| > 0 {
      var m := |rocks| - 1;
      var pre, preTries := rocks[..m], tries[..m];
      DrawnRocksAreLaidOut(pre, preTries, random, from, width, groundY);
      LastDrawnRockIsPlaced(rocks, tries, random, from, width, groundY);
      assert ResetRockAnchor(rocks, m, width) == ResetRockAnchor(pre, m, width) by {
        if m > 0 { assert rocks[m - 1] == pre[m - 1]; }
      }
      SplitLast(rocks);
      SplitLast(tries);
      ExtendLaidOut(pre, preTries, rocks[m], tries[m], width, groundY);
    }
  }

  /** Rocks drawn from the stream are the rocks before the last, drawn the
      same way, and the last one drawn where they stopped. */
  lemma RocksDrawnSplit(rocks: seq<Rock>, tries: seq<nat>, random: nat -> real,
                        from: nat, width: real, groundY: real)
    requires |rocks| > 0 && RocksDrawn(rocks, tries, random, from, width, groundY)
    ensures var m := |rocks| - 1;
            && |tries| == |rocks|
            && RocksDrawn(rocks[..m], tries[..m], random, from, width, groundY)
            && RockDrawn(rocks[m], tries[m], random, from + Sum(tries[..m]),
                         ResetRockAnchor(rocks, m, width), rocks[..m], width, groundY)
  {
  }

  /** The last of a sequence of rocks drawn from a stream of samples in [0, 1)
      lies in the span beyond its anchor and is spaced from the rocks before
      it when found early; the rocks before it were drawn the same way. */
  lemma LastDrawnRockIsPlaced(rocks: seq<Rock>, tries: seq<nat>, random: nat -> real,
                              from: nat, width: real, groundY: real)
    requires InUnit(random) && width > 0.0 && |rocks| > 0
    requires RocksDrawn(rocks, tries, random, from, width, groundY)
    ensures RocksDrawn(rocks[..|rocks| - 1], tries[..|rocks| - 1], random, from, width, groundY)
    ensures 1 <= tries[|rocks| - 1] <= ROCK_RESET_TRIES
    ensures var r := rocks[|rocks| - 1];
            r.y == groundY && r.w == RockWidth(width) && r.h == RockHeight(width)
    ensures ResetRockAnchor(rocks, |rocks| - 1, width) + MinRockGap(width) <= rocks[|rocks| - 1].x
            < ResetRockAnchor(rocks, |rocks| - 1, width) + MinRockGap(width) + width * 0.5
    ensures tries[|rocks| - 1] < ROCK_RESET_TRIES ==>
              ResetRockOk(rocks[|rocks| - 1].x, rocks[..|rocks| - 1], width)
  {
    var m := |rocks| - 1;
    RocksDrawnSplit(rocks, tries, random, from, width, groundY);
    DrawnRockIsPlaced(rocks[m], tries[m], random, from + Sum(tries[..m]),
                      ResetRockAnchor(rocks, m, width), rocks[..m], width, groundY);
  }

  /** A rock drawn from a sample in [0, 1) sits on the ground, lies in the
      half-canvas span that starts a rock gap beyond its anchor, and passes
      the spacing test when found in fewer than 30 tries. */
  lemma DrawnRockIsPlaced(rock: Rock, n: nat, random: nat -> real, from: nat, anchor: real,
                          placed: seq<Rock>, width: real, groundY: real)
    requires InUnit(random) && width > 0.0
    requires RockDrawn(rock, n, random, from, anchor, placed, width, groundY)
    ensures 1 <= n <= ROCK_RESET_TRIES
    ensures rock.y == groundY && rock.w == RockWidth(width) && rock.h == RockHeight(width)
    ensures anchor + MinRockGap(width) <= rock.x < anchor + MinRockGap(width) + width * 0.5
    ensures n < ROCK_RESET_TRIES ==> ResetRockOk(rock.x, placed, width)
  {
    SampleInSpan(rock.x, anchor + MinRockGap(width), random(from + n - 1), width * 0.5);
  }

  /** One more rock, placed as a reset places it beyond the last rock, keeps
      the layout. */
  lemma ExtendLaidOut(pre: seq<Rock>, preTries: seq<nat>, rock: Rock, n: nat, width: real, groundY: real)
    requires |pre| == |preTries| && RocksLaidOut(pre, preTries, width, groundY)
    requires 1 <= n <= ROCK_RESET_TRIES
    requires rock.y == groundY && rock.w == RockWidth(width) && rock.h == RockHeight(width)
    requires ResetRockAnchor(pre, |pre|, width) + MinRockGap(width) <= rock.x
             < ResetRockAnchor(pre, |pre|, width) + MinRockGap(width) + width * 0.5
    requires n < ROCK_RESET_TRIES ==> ResetRockOk(rock.x, pre, width)
    ensures RocksLaidOut(pre + [rock], preTries + [n], width, groundY)
  {
    ExtendInSpans(pre, preTries, rock, n, width, groundY);
    ExtendApart(pre, preTries, rock, n, width);
  }

  lemma ExtendInSpans(pre: seq<Rock>, preTries: seq<nat>, rock: Rock, n: nat, width: real, groundY: real)
    requires |pre| == |preTries| && RocksInSpans(pre, preTries, width, groundY)
    requires 1 <= n <= ROCK_RESET_TRIES
    requires rock.y == groundY && rock.w == RockWidth(width) && rock.h == RockHeight(width)
    requires ResetRockAnchor(pre, |pre|, width) + MinRockGap(width) <= rock.x
             < ResetRockAnchor(pre, |pre|, width) + MinRockGap(width) + width * 0.5
    ensures RocksInSpans(pre + [rock], preTries + [n], width, groundY)
  {
    var rocks, tries := pre + [rock], preTries + [n];
    var m, gap := |pre|, MinRockGap(width);
    forall i | 0 <= i < |rocks|
      ensures 1 <= tries[i] <= ROCK_RESET_TRIES
      ensures rocks[i].y == groundY && rocks[i].w == RockWidth(width) && rocks[i].h == RockHeight(width)
      ensures ResetRockAnchor(rocks, i, width) + gap <= rocks[i].x < ResetRockAnchor(rocks, i, width) + gap + width * 0.5
    {
      assert ResetRockAnchor(rocks, i, width) == ResetRockAnchor(pre, i, width);
      if i < m {
        assert rocks[i] == pre[i] && tries[i] == preTries[i];
      }
    }
  }

  lemma ExtendApart(pre: seq<Rock>, preTries: seq<nat>, rock: Rock, n: nat, width: real)
    requires |pre| == |preTries| && RocksApart(pre, preTries, width)
    requires n < ROCK_RESET_TRIES ==> ResetRockOk(rock.x, pre, width)
    ensures RocksApart(pre + [rock], preTries + [n], width)
  {
    var rocks, tries := pre + [rock], preTries + [n];
    var m, gap, w := |pre|, MinRockGap(width), RockWidth(width);
    forall i, j | 0 <= j < i < |rocks| && tries[i] < ROCK_RESET_TRIES
      ensures !(rocks[i].x < rocks[j].x + w + gap && rocks[i].x + w > rocks[j].x - gap)
    {
      assert rocks[j] == pre[j];
      if i < m {
        assert rocks[i] == pre[i] && tries[i] == preTries[i];
      } else {
        assert RockSpaced(rock.x, w, pre, -1, gap);
      }
    }
  }

  /** Droplets drawn from a stream of samples in [0, 1) are laid out as a
      reset promises. */
  lemma {:induction false} DrawnDropletsAreLaidOut(drops: seq<Droplet>, tries: seq<nat>, random: nat -> real,
                                                   from: nat, rocks: seq<Rock>, width: real, groundY: real)
    requires InUnit(random) && width > 0.0
    requires DropletsDrawn(drops, tries, random, from, rocks, width, groundY)
    ensures DropletsLaidOut(drops, tries, rocks, width, groundY)
    decreases |drops|
  {
    if |drops| > 0 {
      var m := |drops| - 1;
      var pre, preTries := drops[..m], tries[..m];
      DrawnDropletsPrefix(drops, tries, random, from, rocks, width, groundY);
      DrawnDropletsAreLaidOut(pre, preTries, random, from, rocks, width, groundY);
      LastDrawnDropletIsPlaced(drops, tries, random, from, rocks, width, groundY);
      SplitLast(drops);
      SplitLast(tries);
      ExtendDropletsLaidOut(pre, preTries, drops[m], tries[m], rocks, width, groundY);
    }
  }

  /** The last of a sequence of droplets drawn from a stream of samples in
      [0, 1) lies in its span and is clear of the rocks and of the droplets
      before it when found early; the droplets before it were drawn the same
      way. */
  lemma LastDrawnDropletIsPlaced(drops: seq<Droplet>, tries: seq<nat>, random: nat -> real,
                                 from: nat, rocks: seq<Rock>, width: real, groundY: real)
    requires InUnit(random) && width > 0.0 && |drops| > 0
    requires DropletsDrawn(drops, tries, random, from, rocks, width, groundY)
    ensures 1 <= tries[|drops| - 1] <= DROPLET_RESET_TRIES
    ensures var d := drops[|drops| - 1];
            d.y == DropY(groundY, width) && d.w == DropWidth(width) && d.h == DropHeight(width) && !d.collected
    ensures width + 100.0 <= drops[|drops| - 1].x < width + 100.0 + width * 0.7
    ensures tries[|drops| - 1] < DROPLET_RESET_TRIES ==>
              ResetDropletOk(drops[|drops| - 1].x, rocks, drops[..|drops| - 1], width)
  {
    var m := |drops| - 1;
    SampleInSpan(drops[m].x, width + 100.0, random(from + Sum(tries[..m]) + tries[m] - 1), width * 0.7);
  }

  /** The droplets before the last one of a drawn sequence were drawn the
      same way. */
  lemma DrawnDropletsPrefix(drops: seq<Droplet>, tries: seq<nat>, random: nat -> real,
                            from: nat, rocks: seq<Rock>, width: real, groundY: real)
    requires |drops| > 0 && DropletsDrawn(drops, tries, random, from, rocks, width, groundY)
    ensures DropletsDrawn(drops[..|drops| - 1], tries[..|drops| - 1], random, from, rocks, width, groundY)
  {
  }

  /** One more droplet, placed as a reset places it, keeps the layout. */
  lemma ExtendDropletsLaidOut(pre: seq<Droplet>, preTries: seq<nat>, d: Droplet, n: nat,
                              rocks: seq<Rock>, width: real, groundY: real)
    requires |pre| == |preTries| && DropletsLaidOut(pre, preTries, rocks, width, groundY)
    requires 1 <= n <= DROPLET_RESET_TRIES
    requires d.y == DropY(groundY, width) && d.w == DropWidth(width) && d.h == DropHeight(width) && !d.collected
    requires width + 100.0 <= d.x < width + 100.0 + width * 0.7
    requires n < DROPLET_RESET_TRIES ==> ResetDropletOk(d.x, rocks, pre, width)
    ensures DropletsLaidOut(pre + [d], preTries + [n], rocks, width, groundY)
  {
    var drops, tries := pre + [d], preTries + [n];
    var m := |pre|;
    forall i, j | 0 <= j < i < |drops| && tries[i] < DROPLET_RESET_TRIES
      ensures !BoxesOverlapWithBuffer(drops[i].x, DropWidth(width), drops[j].x, drops[j].w, MinDropBuffer(width))
    {
      assert drops[j] == pre[j];
      if i < m {
        assert drops[i] == pre[i] && tries[i] == preTries[i];
      } else {
        assert ClearOfPlacedDroplets(d.x, DropWidth(width), pre, MinDropBuffer(width));
      }
    }
    forall i | 0 <= i < |drops|
      ensures 1 <= tries[i] <= DROPLET_RESET_TRIES
      ensures drops[i].y == DropY(groundY, width) && drops[i].w == DropWidth(width)
              && drops[i].h == DropHeight(width) && !drops[i].collected
      ensures width + 100.0 <= drops[i].x < width + 100.0 + width * 0.7
      ensures tries[i] < DROPLET_RESET_TRIES ==> MissesRocks(drops[i].x, DropWidth(width), rocks)
    {
      if i < m {
        assert drops[i] == pre[i] && tries[i] == preTries[i];
      }
    }
  }

  /** A rock drawn from where the rocks before it stopped, anchored on the
      last of them, extends a drawn sequence. */
  lemma AppendDrawnRock(rocks: seq<Rock>, tries: seq<nat>, rock: Rock, n: nat, random: nat -> real,
                        from: nat, width: real, groundY: real)
    requires RocksDrawn(rocks, tries, random, from, width, groundY)
    requires RockDrawn(rock, n, random, from + Sum(tries), ResetRockAnchor(rocks, |rocks|, width),
                       rocks, width, groundY)
    ensures RocksDrawn(rocks + [rock], tries + [n], random, from, width, groundY)
  {
    var next := rocks + [rock];
    assert ResetRockAnchor(next, |rocks|, width) == ResetRockAnchor(rocks, |rocks|, width);
    assert next[..|rocks|] == rocks && (tries + [n])[..|rocks|] == tries;
  }

  /** A droplet drawn from where the droplets before it stopped extends a
      drawn sequence. */
  lemma AppendDrawnDroplet(drops: seq<Droplet>, tries: seq<nat>, d: Droplet, n: nat, random: nat -> real,
                           from: nat, rocks: seq<Rock>, width: real, groundY: real)
    requires DropletsDrawn(drops, tries, random, from, rocks, width, groundY)
    requires DropletDrawn(d, n, random, from + Sum(tries), rocks, drops, width, groundY)
    ensures DropletsDrawn(drops + [d], tries + [n], random, from, rocks, width, groundY)
  {
    assert (drops + [d])[..|drops|] == drops && (tries + [n])[..|drops|] == tries;
  }

  /** The rocks of a new level, with the number of tries each took: two rocks
      drawn from the stream at `from` as RocksDrawn says, and so laid out as
      RocksLaidOut says. */
  ghost predicate NewLevelRocks(rocks: seq<Rock>, tries: seq<nat>, random: nat -> real, from: nat,
                                width: real, groundY: real)
  {
    && |rocks| == ROCK_COUNT && |tries| == ROCK_COUNT
    && RocksDrawn(rocks, tries, random, from, width, groundY)
    && RocksLaidOut(rocks, tries, width, groundY)
  }

  /** The droplets of a new level, with the number of tries each took: five
      droplets drawn from the stream at `from` as DropletsDrawn says, and so
      laid out as DropletsLaidOut says. */
  ghost predicate NewLevelDroplets(drops: seq<Droplet>, tries: seq<nat>, random: nat -> real, from: nat,
                                   rocks: seq<Rock>, width: real, groundY: real)
  {
    && |drops| == DROPLET_COUNT && |tries| == DROPLET_COUNT
    && DropletsDrawn(drops, tries, random, from, rocks, width, groundY)
    && DropletsLaidOut(drops, tries, rocks, width, groundY)
  }

  /** A whole new level: its rocks drawn from the stream at `from`, its
      droplets drawn where the rocks stopped, and `last` the position after
      the last sample read. */
  ghost predicate NewLevel(rocks: seq<Rock>, drops: seq<Droplet>, rockTries: seq<nat>, dropTries: seq<nat>,
                           random: nat -> real, from: nat, last: nat, width: real, groundY: real)
  {
    && NewLevelRocks(rocks, rockTries, random, from, width, groundY)
    && NewLevelDroplets(drops, dropTries, random, from + Sum(rockTries), rocks, width, groundY)
    && last == from + Sum(rockTries) + Sum(dropTries)
  }

  /** One rock of a new level, drawn from the stream at `from` as RockDrawn
      says. */
  method DrawRock(random: nat -> real, from: nat, width: real, groundY: real,
                  anchor: real, placed: seq<Rock>)
    returns (rock: Rock, n: nat)
    requires InUnit(random) && width > 0.0
    ensures RockDrawn(rock, n, random, from, anchor, placed, width, groundY)
  {
    var x, valid;
    x, valid, n := Sample(random, from, ROCK_RESET_TRIES,
                          r => RockCandidate(r, anchor, width),
                          c => ResetRockOk(c, placed, width));
    rock := Rock(x, groundY, RockWidth(width), RockHeight(width));
  }

  /** The two rocks of a new level, drawn from the stream at `from`; `used`
      samples are read in all. */
  method PlaceRocks(random: nat -> real, from: nat, width: real, groundY: real)
    returns (rocks: seq<Rock>, used: nat, tries: seq<nat>)
    requires InUnit(random) && width > 0.0
    ensures used == Sum(tries)
    ensures NewLevelRocks(rocks, tries, random, from, width, groundY)
  {
    var lastRockX := width + 100.0;
    rocks, used, tries := [], 0, [];
    for i := 0 to ROCK_COUNT
      invariant |rocks| == i && |tries| == i
      invariant used == Sum(tries)
      invariant RocksDrawn(rocks, tries, random, from, width, groundY)
      invariant lastRockX == ResetRockAnchor(rocks, i, width)
    {
      var rock, n := DrawRock(random, from + used, width, groundY, lastRockX, rocks);
      AppendDrawnRock(rocks, tries, rock, n, random, from, width, groundY);
      rocks := rocks + [rock];
      SumAppend(tries, n);
      tries := tries + [n];
      used := used + n;
      lastRockX := rock.x;
    }
    DrawnRocksAreLaidOut(rocks, tries, random, from, width, groundY);
  }

  /** One droplet of a new level, drawn from the stream at `from` as
      DropletDrawn says. */
  method DrawDroplet(random: nat -> real, from: nat, width: real, groundY: real,
                     rocks: seq<Rock>, placed: seq<Droplet>)
    returns (d: Droplet, n: nat)
    requires InUnit(random) && width > 0.0
    ensures DropletDrawn(d, n, random, from, rocks, placed, width, groundY)
  {
    var x, valid;
    x, valid, n := Sample(random, from, DROPLET_RESET_TRIES,
                          r => ResetDropletCandidate(r, width),
                          c => ResetDropletOk(c, rocks, placed, width));
    d := Droplet(x, DropY(groundY, width), DropWidth(width), DropHeight(width), false);
  }

  /** The five droplets of a new level, drawn from the stream at `from`;
      `used` samples are read in all. */
  method PlaceDroplets(random: nat -> real, from: nat, width: real, groundY: real, rocks: seq<Rock>)
    returns (drops: seq<Droplet>, used: nat, tries: seq<nat>)
    requires InUnit(random) && width > 0.0
    ensures used == Sum(tries)
    ensures NewLevelDroplets(drops, tries, random, from, rocks, width, groundY)
  {
    drops, used, tries := [], 0, [];
    for i := 0 to DROPLET_COUNT
      invariant |drops| == i && |tries| == i
      invariant used == Sum(tries)
      invariant DropletsDrawn(drops, tries, random, from, rocks, width, groundY)
    {
      var d, n := DrawDroplet(random, from + used, width, groundY, rocks, drops);
      AppendDrawnDroplet(drops, tries, d, n, random, from, rocks, width, groundY);
      drops := drops + [d];
      SumAppend(tries, n);
      tries := tries + [n];
      used := used + n;
    }
    DrawnDropletsAreLaidOut(drops, tries, random, from, rocks, width, groundY);
  }

  /** The rocks and then the droplets of a new level, drawn from the stream
      at `from`; the stream is read up to `last`. */
  method PlaceLevel(random: nat -> real, from: nat, width: real, groundY: real)
    returns (rocks: seq<Rock>, drops: seq<Droplet>, last: nat,
             ghost rockTries: seq<nat>, ghost dropTries: seq<nat>)
    requires InUnit(random) && width > 0.0
    ensures NewLevel(rocks, drops, rockTries, dropTries, random, from, last, width, groundY)
  {
    var usedR, usedD;
    rocks, usedR, rockTries := PlaceRocks(random, from, width, groundY);
    drops, usedD, dropTries := PlaceDroplets(random, from + usedR, width, groundY, rocks);
    last := from + usedR + usedD;
  }

  /** `a` is the largest of the canvas width, the x of every rock but the one
      at `skip`, and the x of every uncollected droplet. */
  predicate IsRespawnAnchor(a: real, rocks: seq<Rock>, skip: int, drops: seq<Droplet>, width: real)
  {
    && a >= width
    && (forall j :: 0 <= j < |rocks| && j != skip ==> rocks[j].x <= a)
    && (forall j :: 0 <= j < |drops| && !drops[j].collected ==> drops[j].x <= a)
    && (a == width
        || (exists j :: 0 <= j < |rocks| && j != skip && a == rocks[j].x)
        || (exists j :: 0 <= j < |drops| && !drops[j].collected && a == drops[j].x))
  }

  /** The position a respawning rock is placed beyond: the maximum over the
      canvas width, the other rocks and the uncollected droplets. */
  method RespawnAnchor(rocks: seq<Rock>, skip: int, drops: seq<Droplet>, width: real)
    returns (maxX: real)
    ensures IsRespawnAnchor(maxX, rocks, skip, drops, width)
  {
    maxX := width;
    for j := 0 to |rocks|
      invariant maxX >= width
      invariant forall k :: 0 <= k < j && k != skip ==> rocks[k].x <= maxX
      invariant maxX == width || (exists k :: 0 <= k < j && k != skip && maxX == rocks[k].x)
    {
      if j != skip && rocks[j].x > maxX {
        maxX := rocks[j].x;
      }
    }
    for j := 0 to |drops|
      invariant maxX >= width
      invariant forall k :: 0 <= k < |rocks| && k != skip ==> rocks[k].x <= maxX
      invariant forall k :: 0 <= k < j && !drops[k].collected ==> drops[k].x <= maxX
      invariant maxX == width
                || (exists k :: 0 <= k < |rocks| && k != skip && maxX == rocks[k].x)
                || (exists k :: 0 <= k < j && !drops[k].collected && maxX == drops[k].x)
    {
      if !drops[j].collected && drops[j].x > maxX {
        maxX := drops[j].x;
      }
    }
  }

  /** The anchor is determined: it is the maximum of its candidates. */
  lemma RespawnAnchorUnique(a: real, b: real, rocks: seq<Rock>, skip: int, drops: seq<Droplet>, width: real)
    requires IsRespawnAnchor(a, rocks, skip, drops, width)
    requires IsRespawnAnchor(b, rocks, skip, drops, width)
    ensures a == b
  {
  }

  /** A rock placed at least `gap` beyond its respawn anchor starts off the
      right edge and at least `gap` to the right of every other rock and of
      every uncollected droplet. */
  lemma RespawnedRockLeadsTheScene(x: real, gap: real, a: real, rocks: seq<Rock>, skip: int,
                                   drops: seq<Droplet>, width: real)
    requires gap > 0.0 && IsRespawnAnchor(a, rocks, skip, drops, width) && a + gap <= x
    ensures x > width
    ensures forall j :: 0 <= j < |rocks| && j != skip ==> rocks[j].x + gap <= x
    ensures forall j :: 0 <= j < |drops| && !drops[j].collected ==> drops[j].x + gap <= x
  {
  }

  /** The test a respawning rock of width `w` must pass: the rock-droplet gap
      from every uncollected droplet and the rock gap from every other rock. */
  predicate RespawnRockOk(x: real, w: real, rocks: seq<Rock>, i: int, drops: seq<Droplet>, width: real)
  {
    RockClearOfDroplets(x, w, drops, RespawnRockDropGap(width))
    && RockSpaced(x, w, rocks, i, MinRockGap(width))
  }

  /** The new position of rock `i` once it has left the screen, read from the
      stream at `from`: the candidate beyond the respawn anchor of the last
      sample read, after every earlier candidate failed the test, and a
      failing candidate only when all 30 tries were used. The rock's own width
      is used for both tests. */
  method RespawnRock(random: nat -> real, from: nat, width: real,
                     rocks: seq<Rock>, i: nat, drops: seq<Droplet>)
    returns (x: real, anchor: real, n: nat)
    requires InUnit(random) && width > 0.0 && i < |rocks|
    ensures IsRespawnAnchor(anchor, rocks, i, drops, width)
    ensures anchor + MinRockGap(width) <= x < anchor + MinRockGap(width) + width * 0.5
    ensures 1 <= n <= ROCK_RESPAWN_TRIES
    ensures x == RockCandidate(random(from + n - 1), anchor, width)
    ensures forall k :: from <= k < from + n - 1 ==>
              !RespawnRockOk(RockCandidate(random(k), anchor, width), rocks[i].w, rocks, i, drops, width)
    ensures !RespawnRockOk(x, rocks[i].w, rocks, i, drops, width) ==> n == ROCK_RESPAWN_TRIES
  {
    var w := rocks[i].w;
    anchor := RespawnAnchor(rocks, i, drops, width);
    var valid;
    x, valid, n := Sample(random, from, ROCK_RESPAWN_TRIES,
                          r => RockCandidate(r, anchor, width),
                          c => RespawnRockOk(c, w, rocks, i, drops, width));
    SampleInSpan(x, anchor + MinRockGap(width), random(from + n - 1), width * 0.5);
  }

  /** A spot at `x` for droplet `i` of width `w` overlaps no rock and keeps the
      droplet buffer from every other uncollected droplet. */
  predicate DropletSpotOk(x: real, w: real, rocks: seq<Rock>, drops: seq<Droplet>, i: int, width: real)
  {
    MissesRocks(x, w, rocks) && ClearOfLiveDroplets(x, w, drops, i, MinDropBuffer(width))
  }

  /** The candidate spot a sample `r` gives a respawning droplet. */
  function DropletCandidate(r: real, width: real): (x: real)
  {
    width + r * (width / 2.0)
  }

  /** Up to 10 tries for a new spot for droplet `i` in [width, 1.5 width),
      read from the stream at `from`: the spot is the candidate of the last
      sample read, every earlier candidate failed, and `valid` says whether
      the spot is good; when it is not, every one of the 10 candidates failed. */
  method RespawnDroplet(random: nat -> real, from: nat, width: real,
                        rocks: seq<Rock>, drops: seq<Droplet>, i: nat)
    returns (x: real, valid: bool, n: nat)
    requires InUnit(random) && width > 0.0 && i < |drops|
    ensures 1 <= n <= DROPLET_RESPAWN_TRIES
    ensures width <= x < width + width / 2.0
    ensures x == DropletCandidate(random(from + n - 1), width)
    ensures forall k :: from <= k < from + n - 1 ==>
              !DropletSpotOk(DropletCandidate(random(k), width), drops[i].w, rocks, drops, i, width)
    ensures valid == DropletSpotOk(x, drops[i].w, rocks, drops, i, width)
    ensures !valid ==> n == DROPLET_RESPAWN_TRIES
    ensures !valid ==> forall k :: from <= k < from + DROPLET_RESPAWN_TRIES ==>
              !DropletSpotOk(DropletCandidate(random(k), width), drops[i].w, rocks, drops, i, width)
  {
    var w := drops[i].w;
    x, valid, n := Sample(random, from, DROPLET_RESPAWN_TRIES,
                          r => DropletCandidate(r, width),
                          c => DropletSpotOk(c, w, rocks, drops, i, width));
    SampleInSpan(x, width, random(from + n - 1), width / 2.0);
  }

  /** Pieces of work that read the stream one after the other: piece i starts
      reading at `starts[i]` and reads `tries[i]` samples, the first starts at
      `first`, each next one where the one before stopped, and the last stops
      at `last`. */
  ghost predicate Consecutive(starts: seq<nat>, tries: seq<nat>, first: nat, last: nat)
  {
    && |starts| == |tries|
    && (if |starts| == 0 then last == first
        else starts[0] == first && last == starts[|starts| - 1] + tries[|tries| - 1])
    && (forall i :: 0 <= i < |starts| - 1 ==> starts[i + 1] == starts[i] + tries[i])
  }

  /** A piece that reads `n` samples where the pieces before it stopped
      extends the chain. */
  lemma ConsecutiveAppend(starts: seq<nat>, tries: seq<nat>, first: nat, last: nat, n: nat)
    requires Consecutive(starts, tries, first, last)
    ensures Consecutive(starts + [last], tries + [n], first, last + n)
  {
  }

  /** Rock `before` after one frame: moved left by `speed`, and when that takes
      it fully off the left edge, respawned as RespawnRock describes against
      `scene`, the rocks as the frame sees them at that point, reading `tries`
      samples of the stream from `from`. A rock that stays on screen reads
      none. */
  ghost predicate RockAdvanced(before: Rock, after: Rock, speed: real, scene: seq<Rock>, i: int,
                               drops: seq<Droplet>, width: real, random: nat -> real, from: nat,
                               anchor: real, tries: nat)
  {
    var moved := before.x - speed;
    && after == before.(x := after.x)
    && if moved + before.w >= 0.0 then after.x == moved && tries == 0
       else
         && IsRespawnAnchor(anchor, scene, i, drops, width)
         && 1 <= tries <= ROCK_RESPAWN_TRIES
         && after.x == RockCandidate(random(from + tries - 1), anchor, width)
         && (forall k :: from <= k < from + tries - 1 ==>
               !RespawnRockOk(RockCandidate(random(k), anchor, width), before.w, scene, i, drops, width))
         && (!RespawnRockOk(after.x, before.w, scene, i, drops, width) ==> tries == ROCK_RESPAWN_TRIES)
  }

  /** Droplet `before` after one frame: moved left by `speed`; once fully off
      the left edge it reads up to 10 samples from `from`, and takes the first
      good candidate and becomes uncollected again if there is one, and
      otherwise stays where the move put it after reading all 10. A droplet
      that stays on screen reads none. */
  ghost predicate DropletAdvanced(before: Droplet, after: Droplet, speed: real, rocks: seq<Rock>,
                                  scene: seq<Droplet>, i: int, width: real,
                                  random: nat -> real, from: nat, tries: nat, respawned: bool)
  {
    var moved := before.x - speed;
    if moved + before.w >= 0.0 then after == before.(x := moved) && !respawned && tries == 0
    else
      && 1 <= tries <= DROPLET_RESPAWN_TRIES
      && (forall k :: from <= k < from + tries - 1 ==>
            !DropletSpotOk(DropletCandidate(random(k), width), before.w, rocks, scene, i, width))
      && if respawned then
           && after == before.(x := DropletCandidate(random(from + tries - 1), width), collected := false)
           && width <= after.x < width + width / 2.0
           && DropletSpotOk(after.x, before.w, rocks, scene, i, width)
         else
           && after == before.(x := moved)
           && tries == DROPLET_RESPAWN_TRIES
           && !DropletSpotOk(DropletCandidate(random(from + tries - 1), width), before.w, rocks, scene, i, width)
  }
}
