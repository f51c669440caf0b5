/**
 * Coordinates and the arithmetic mean that Hierarchical.Cluster.calculateCentroid computes.
 * Coordinates are exact reals; the one non-number the engine can produce, the NaN pair
 * that 0.0 / 0 gives for the centroid of an empty member list, is a constructor of its own.
 */
module Geometry {

  datatype Coord = At(x: real, y: real) | NaN

  /** Every coordinate pair is a number pair. */
  predicate AllAt(ps: seq<Coord>)
  {
    forall i :: 0 <= i < |ps| ==> ps[i].At?
  }

  /** Sum of the x coordinates, accumulated from the front as the source's loop does. */
  function SumX(ps: seq<Coord>): real
    requires AllAt(ps)
  {
    if |ps| == 0 then 0.0 else SumX(ps[..|ps| - 1]) + ps[|ps| - 1].x
  }

  /** Sum of the y coordinates, accumulated from the front. */
  function SumY(ps: seq<Coord>): real
    requires AllAt(ps)
  {
    if |ps| == 0 then 0.0 else SumY(ps[..|ps| - 1]) + ps[|ps| - 1].y
  }

  /** The centroid: the mean of the coordinates, NaN for no coordinates (0.0 / 0 in Java). */
  function Mean(ps: seq<Coord>): (m: Coord)
    requires AllAt(ps)
    ensures m.NaN? <==> |ps| == 0
  {
    if |ps| == 0 then NaN else At(SumX(ps) / |ps| as real, SumY(ps) / |ps| as real)
  }

  /** The centroid of a single point is that point. */
  lemma MeanOfOne(p: Coord)
    requires p.At?
    ensures Mean([p]) == p
  {
    assert [p][..0] == [];
    assert SumX([]) == 0.0 && SumY([]) == 0.0;
    assert SumX([p]) == SumX([]) + p.x;
    assert SumY([p]) == SumY([]) + p.y;
  }

  /** Sums split over concatenation. */
  lemma {:induction false} SumsAppend(a: seq<Coord>, b: seq<Coord>)
    requires AllAt(a) && AllAt(b)
    ensures AllAt(a + b)
    ensures SumX(a + b) == SumX(a) + SumX(b)
    ensures SumY(a + b) == SumY(a) + SumY(b)
  {
    assert AllAt(a + b) by {
      forall i | 0 <= i < |a + b| ensures (a + b)[i].At? {
        if i >= |a| { assert (a + b)[i] == b[i - |a|]; }
      }
    }
    if |b| > 0 {
      var b' := b[..|b| - 1];
      assert (a + b)[..|a + b| - 1] == a + b';
      assert AllAt(b');
      SumsAppend(a, b');
    } else {
      assert a + b == a;
    }
  }

  /**
   * Merging two non-empty member lists gives the size-weighted mean of the two centroids:
   * the centroid of an absorbing cluster after an absorb, computed from the two centroids before it.
   */
  lemma MeanOfUnion(a: seq<Coord>, b: seq<Coord>)
    requires AllAt(a) && AllAt(b) && |a| > 0 && |b| > 0
    ensures AllAt(a + b)
    ensures Mean(a + b) == At((|a| as real * Mean(a).x + |b| as real * Mean(b).x) / (|a| + |b|) as real,
                              (|a| as real * Mean(a).y + |b| as real * Mean(b).y) / (|a| + |b|) as real)
  {
    SumsAppend(a, b);
    var na, nb := |a| as real, |b| as real;
    assert na * (SumX(a) / na) == SumX(a);
    assert nb * (SumX(b) / nb) == SumX(b);
    assert na * (SumY(a) / na) == SumY(a);
    assert nb * (SumY(b) / nb) == SumY(b);
  }

  /** Squared Euclidean distance; sqrt is monotone, so it orders pairs exactly as the distance does. */
  function SqDist(a: Coord, b: Coord): (d: real)
    requires a.At? && b.At?
    ensures d >= 0.0
    ensures a == b ==> d == 0.0
  {
    var dx, dy := a.x - b.x, a.y - b.y;
    SquareNonNeg(dx);
    SquareNonNeg(dy);
    dx * dx + dy * dy
  }

  /** A square is never negative. */
  lemma SquareNonNeg(u: real)
    ensures u * u >= 0.0
  {
    if u < 0.0 {
      var w := -u;
      assert w * w > 0.0;
      assert u * u == w * w;
    }
  }

  /** The distance does not depend on the order of its arguments. */
  lemma SqDistSymmetric(a: Coord, b: Coord)
    requires a.At? && b.At?
    ensures SqDist(a, b) == SqDist(b, a)
  {
  }
}
