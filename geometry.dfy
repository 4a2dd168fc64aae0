/**
  Overlap tests used for layout generation and for live collision detection.
  All comparisons are strict, so boxes and intervals that merely touch do
  not overlap.
 */
module Geometry {

  /** 2-D axis-aligned box intersection: box 1 at (x1, y1) of size w1 x h1
      against box 2 at (x2, y2) of size w2 x h2. */
  predicate Collides(x1: real, y1: real, w1: real, h1: real,
                     x2: real, y2: real, w2: real, h2: real)
    ensures Collides(x1, y1, w1, h1, x2, y2, w2, h2)
            <==> BoxesOverlap(x1, w1, x2, w2) && BoxesOverlap(y1, h1, y2, h2)
  {
    x1 < x2 + w2 && x1 + w1 > x2 && y1 < y2 + h2 && y1 + h1 > y2
  }

  /** Horizontal interval overlap of two droplets (the same test as BoxesOverlap). */
  predicate DropletsOverlap(x1: real, w1: real, x2: real, w2: real)
    ensures DropletsOverlap(x1, w1, x2, w2) <==> BoxesOverlap(x1, w1, x2, w2)
  {
    x1 < x2 + w2 && x1 + w1 > x2
  }

  /** Horizontal interval overlap: [x1, x1 + w1] against [x2, x2 + w2]. */
  predicate BoxesOverlap(x1: real, w1: real, x2: real, w2: real)
    ensures BoxesOverlap(x1, w1, x2, w2) <==> BoxesOverlapWithBuffer(x1, w1, x2, w2, 0.0)
  {
    x1 < x2 + w2 && x1 + w1 > x2
  }

  /** Horizontal interval overlap where the gap between the intervals must be
      at least `buffer` for them to count as apart. */
  predicate BoxesOverlapWithBuffer(x1: real, w1: real, x2: real, w2: real, buffer: real)
    ensures !BoxesOverlapWithBuffer(x1, w1, x2, w2, buffer)
            <==> x2 + w2 + buffer <= x1 || x1 + w1 + buffer <= x2
  {
    x1 < x2 + w2 + buffer && x1 + w1 + buffer > x2
  }

  /** Point p lies strictly inside the interval [x, x + w]. */
  predicate Inside(p: real, x: real, w: real)
  {
    x < p < x + w
  }

  /** Collision does not depend on which box is named first. */
  lemma CollidesSymmetric(x1: real, y1: real, w1: real, h1: real,
                          x2: real, y2: real, w2: real, h2: real)
    ensures Collides(x1, y1, w1, h1, x2, y2, w2, h2) == Collides(x2, y2, w2, h2, x1, y1, w1, h1)
  {
  }

  /** Boxes that touch along a vertical or a horizontal edge do not collide. */
  lemma TouchingBoxesDoNotCollide(x1: real, y1: real, w1: real, h1: real,
                                  x2: real, y2: real, w2: real, h2: real)
    requires x1 + w1 == x2 || x2 + w2 == x1 || y1 + h1 == y2 || y2 + h2 == y1
    ensures !Collides(x1, y1, w1, h1, x2, y2, w2, h2)
  {
  }

  /** Interval overlap, with or without a buffer, does not depend on which
      interval is named first. */
  lemma OverlapSymmetric(x1: real, w1: real, x2: real, w2: real, buffer: real)
    ensures BoxesOverlap(x1, w1, x2, w2) == BoxesOverlap(x2, w2, x1, w1)
    ensures BoxesOverlapWithBuffer(x1, w1, x2, w2, buffer) == BoxesOverlapWithBuffer(x2, w2, x1, w1, buffer)
  {
  }

  /** For intervals of positive width, the overlap test holds exactly when the
      two open intervals share a point. */
  lemma {:induction false} OverlapIffCommonPoint(x1: real, w1: real, x2: real, w2: real)
    requires w1 > 0.0 && w2 > 0.0
    ensures BoxesOverlap(x1, w1, x2, w2)
            <==> exists p :: Inside(p, x1, w1) && Inside(p, x2, w2)
  {
    if BoxesOverlap(x1, w1, x2, w2) {
      var lo := if x1 < x2 then x2 else x1;
      var hi := if x1 + w1 < x2 + w2 then x1 + w1 else x2 + w2;
      var p := (lo + hi) / 2.0;
      assert Inside(p, x1, w1) && Inside(p, x2, w2);
    }
  }

  /** For boxes of positive size, a collision holds exactly when the two open
      boxes share a point. */
  lemma {:induction false} CollidesIffCommonPoint(x1: real, y1: real, w1: real, h1: real,
                                                  x2: real, y2: real, w2: real, h2: real)
    requires w1 > 0.0 && h1 > 0.0 && w2 > 0.0 && h2 > 0.0
    ensures Collides(x1, y1, w1, h1, x2, y2, w2, h2)
            <==> exists px, py :: Inside(px, x1, w1) && Inside(px, x2, w2)
                               && Inside(py, y1, h1) && Inside(py, y2, h2)
  {
    OverlapIffCommonPoint(x1, w1, x2, w2);
    OverlapIffCommonPoint(y1, h1, y2, h2);
    if Collides(x1, y1, w1, h1, x2, y2, w2, h2) {
      var px :| Inside(px, x1, w1) && Inside(px, x2, w2);
      var py :| Inside(py, y1, h1) && Inside(py, y2, h2);
      assert Inside(px, x1, w1) && Inside(px, x2, w2) && Inside(py, y1, h1) && Inside(py, y2, h2);
    }
  }
}
