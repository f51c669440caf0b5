/**
 * The data model of Hierarchical.java: Point and Cluster objects, kept in arenas indexed by
 * object identity, and the two pure operations on points, getDistance and canPointsMerge.
 *
 * A Point's index in the point arena is its identity and (by the constructor's counter) its
 * id; a Cluster's index in the cluster arena is its identity and its clusterId. The
 * predicates at the end state the engine's invariants over these arenas as plain values.
 */
module Clustering {
  import opened Geometry
  import opened JavaLists

  datatype Option<T> = None | Some(value: T)

  /** Hierarchical.NUM_CLUSTERS_FINAL: the number of clusters the merge loop stops at. */
  const NumClustersFinal: nat := 2

  /**
   * Hierarchical.Point: coordinates, the id taken from numPoint, and the owner back-reference
   * (pCluster, an index into the cluster arena; None is null) with its cached clustId.
   */
  datatype Point = Point(pos: Coord, id: nat, clustId: int, owner: Option<nat>)

  /**
   * Hierarchical.Cluster: its members (indices into the point arena, in insertion order), its
   * centroid and previous centroid (Point objects, so indices into the point arena; None is
   * null) and the clusterId taken from numCluster.
   */
  datatype Cluster = Cluster(pointList: seq<nat>, centroid: Option<nat>, prevCentroid: Option<nat>, clusterId: nat)

  /** Hierarchical.getDistance, as the squared Euclidean distance. */
  function GetDistance(a: Point, b: Point): (d: real)
    requires a.pos.At? && b.pos.At?
    ensures d >= 0.0
    ensures a.pos == b.pos ==> d == 0.0
  {
    SqDist(a.pos, b.pos)
  }

  /** The distance between two points does not depend on the order they are given in. */
  lemma GetDistanceSymmetric(a: Point, b: Point)
    requires a.pos.At? && b.pos.At?
    ensures GetDistance(a, b) == GetDistance(b, a)
  {
    SqDistSymmetric(a.pos, b.pos);
  }

  /**
   * Hierarchical.canPointsMerge on the points with identities a and b. The third test
   * dereferences a's owner, so a must be owned whenever the first two tests do not decide.
   * The contract shows the fourth test, identity, never decides: equal identities already
   * have equal ids.
   */
  function CanPointsMerge(points: seq<Point>, a: nat, b: nat): (r: bool)
    requires a < |points| && b < |points|
    requires points[a].id != points[b].id && points[a].clustId != points[b].clustId ==> points[a].owner.Some?
    ensures r ==> a != b
    ensures r <==> points[a].id != points[b].id && points[a].clustId != points[b].clustId
                   && points[a].owner != points[b].owner
  {
    if points[a].id == points[b].id then false
    else if points[a].clustId == points[b].clustId then false
    else if points[a].owner == points[b].owner then false
    else if a == b then false
    else true
  }

  /** Every point identity in pl refers to a point with number coordinates. */
  ghost predicate MembersAt(points: seq<Point>, pl: seq<nat>)
  {
    forall i :: 0 <= i < |pl| ==> pl[i] < |points| && points[pl[i]].pos.At?
  }

  /** The coordinates of the points pl refers to, in pl's order. */
  function Positions(points: seq<Point>, pl: seq<nat>): (ps: seq<Coord>)
    requires MembersAt(points, pl)
    ensures |ps| == |pl| && AllAt(ps)
    ensures forall i :: 0 <= i < |pl| ==> ps[i] == points[pl[i]].pos
  {
    seq(|pl|, i requires 0 <= i < |pl| => points[pl[i]].pos)
  }

  /** The coordinates of the first |p1| points are the same in p2 (the arena only grows). */
  ghost predicate PosPreserved(p1: seq<Point>, p2: seq<Point>)
  {
    |p1| <= |p2| && forall i :: 0 <= i < |p1| ==> p2[i].pos == p1[i].pos
  }

  /** Keeping coordinates is transitive: a later arena keeps the coordinates of every earlier one. */
  lemma PosPreservedTrans(p1: seq<Point>, p2: seq<Point>, p3: seq<Point>)
    requires PosPreserved(p1, p2) && PosPreserved(p2, p3)
    ensures PosPreserved(p1, p3)
  {
    forall i | 0 <= i < |p1|
      ensures p3[i].pos == p1[i].pos
    {
      assert p3[i].pos == p2[i].pos;
    }
  }

  /** Coordinates never change, so neither do the coordinates of an old member list. */
  lemma PositionsFrame(p1: seq<Point>, p2: seq<Point>, pl: seq<nat>)
    requires MembersAt(p1, pl) && PosPreserved(p1, p2)
    ensures MembersAt(p2, pl)
    ensures Positions(p2, pl) == Positions(p1, pl)
  {
  }

  /** Point p after setpCluster(k) and setClustId(k): owned by cluster k, whose id it caches. */
  function Reown(p: Point, k: nat): Point
  {
    p.(owner := Some(k), clustId := k)
  }

  /** The owner back-reference of p points into an arena of n clusters and clustId caches its id. */
  predicate OwnerOk(p: Point, n: nat)
  {
    p.owner.Some? ==> p.owner.value < n && p.clustId == p.owner.value
  }

  /**
   * The arena invariant: identities are ids, allPoints holds no point twice, every listed point
   * exists and has coordinates, back-references stay inside the cluster arena, and every
   * cluster's members are listed points.
   */
  ghost predicate ArenaOk(points: seq<Point>, clusters: seq<Cluster>, allPoints: seq<nat>)
  {
    && (forall i :: 0 <= i < |points| ==> points[i].id == i)
    && (forall k :: 0 <= k < |clusters| ==> clusters[k].clusterId == k)
    && Distinct(allPoints)
    && (forall t :: 0 <= t < |allPoints| ==>
          allPoints[t] < |points| && points[allPoints[t]].pos.At? && OwnerOk(points[allPoints[t]], |clusters|))
    && (forall k, i :: 0 <= k < |clusters| && 0 <= i < |clusters[k].pointList| ==> clusters[k].pointList[i] in allPoints)
  }

  /** clusterList holds no cluster twice and only clusters of the arena. */
  ghost predicate ListOk(clusters: seq<Cluster>, clusterList: seq<nat>)
  {
    Distinct(clusterList) && forall j :: 0 <= j < |clusterList| ==> clusterList[j] < |clusters|
  }

  /** The whole heap invariant: the arena invariant and the clusterList invariant. */
  ghost predicate HeapOk(points: seq<Point>, clusters: seq<Cluster>, allPoints: seq<nat>, clusterList: seq<nat>)
  {
    ArenaOk(points, clusters, allPoints) && ListOk(clusters, clusterList)
  }

  /** A member list drawn from allPoints only names points with coordinates. */
  lemma MembersAtFromArena(points: seq<Point>, clusters: seq<Cluster>, allPoints: seq<nat>, k: nat)
    requires ArenaOk(points, clusters, allPoints) && k < |clusters|
    ensures MembersAt(points, clusters[k].pointList)
  {
  }

  /**
   * An active cluster: non-empty, no member twice, every member owned by it, and its centroid
   * an existing point at the mean of the members' coordinates.
   */
  ghost predicate ActiveOk(points: seq<Point>, c: Cluster, k: nat)
  {
    && |c.pointList| > 0
    && Distinct(c.pointList)
    && MembersAt(points, c.pointList)
    && (forall i :: 0 <= i < |c.pointList| ==> points[c.pointList[i]].owner == Some(k))
    && c.centroid.Some? && c.centroid.value < |points|
    && points[c.centroid.value].pos == Mean(Positions(points, c.pointList))
  }

  /**
   * The partition invariant: every point of allPoints is owned by an active cluster and is a
   * member of it, and every active cluster is well formed.
   */
  ghost predicate Partitioned(points: seq<Point>, clusters: seq<Cluster>, allPoints: seq<nat>, clusterList: seq<nat>)
    requires HeapOk(points, clusters, allPoints, clusterList)
  {
    && (forall t :: 0 <= t < |allPoints| ==>
          points[allPoints[t]].owner.Some? && points[allPoints[t]].owner.value in clusterList
          && allPoints[t] in clusters[points[allPoints[t]].owner.value].pointList)
    && (forall j :: 0 <= j < |clusterList| ==> ActiveOk(points, clusters[clusterList[j]], clusterList[j]))
  }

  /** Under the partition invariant every point of allPoints is in exactly one active cluster. */
  lemma ExactlyOneCluster(points: seq<Point>, clusters: seq<Cluster>, allPoints: seq<nat>, clusterList: seq<nat>, q: nat)
    requires HeapOk(points, clusters, allPoints, clusterList)
    requires Partitioned(points, clusters, allPoints, clusterList)
    requires q in allPoints
    ensures exists k :: k in clusterList && q in clusters[k].pointList
    ensures forall k1, k2 ::
              (k1 in clusterList && k2 in clusterList && q in clusters[k1].pointList && q in clusters[k2].pointList)
              ==> k1 == k2
  {
    var k := points[q].owner.value;
    assert k in clusterList && q in clusters[k].pointList;
  }

  /**
   * With two active clusters or more, every active cluster c has a point outside it: the
   * nearest-point search at Hierarchical.java:221-225 then always finds one.
   */
  lemma ForeignPointExists(points: seq<Point>, clusters: seq<Cluster>, allPoints: seq<nat>, clusterList: seq<nat>, c: nat)
    requires HeapOk(points, clusters, allPoints, clusterList)
    requires Partitioned(points, clusters, allPoints, clusterList)
    requires c in clusterList && |clusterList| >= 2
    ensures exists t :: 0 <= t < |allPoints| && points[allPoints[t]].owner != Some(c)
  {
    var other := if clusterList[0] == c then clusterList[1] else clusterList[0];
    assert other != c;
    assert ActiveOk(points, clusters[other], other);
    var q := clusters[other].pointList[0];
    assert q in allPoints;
    var t :| 0 <= t < |allPoints| && allPoints[t] == q;
    assert points[allPoints[t]].owner == Some(other);
  }
}
