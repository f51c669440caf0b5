/**
 * The Hierarchical object: its fields allPoints, clusterList, numCluster and numPoint, the
 * Point and Cluster constructors, the methods of Point and Cluster that change state, and the
 * two loops of hierarchical() (Hierarchical.java:189-248).
 *
 * Java objects live in two arenas held by the engine: points, every Point created so far, and
 * clusters, every Cluster created so far; a reference is an index into its arena, and a field
 * update of an object is an update of its arena entry.
 */
module Engine {
  import opened Geometry
  import opened JavaLists
  import opened Clustering
  import opened Search
  import opened Partition

  class Hierarchical {
    var allPoints: seq<nat>
    var clusterList: seq<nat>
    var numCluster: nat
    var numPoint: nat
    /** Every Point object created so far; index, identity and id coincide. */
    var points: seq<Point>
    /** Every Cluster object created so far; index, identity and clusterId coincide. */
    var clusters: seq<Cluster>

    /** The point counter matches the arena and every point's id is its identity. */
    ghost predicate PointsOk()
      reads this
    {
      numPoint == |points| && forall i :: 0 <= i < |points| ==> points[i].id == i
    }

    /** Both counters match their arenas and the arena invariant holds. */
    ghost predicate Arena()
      reads this
    {
      numPoint == |points| && numCluster == |clusters| && ArenaOk(points, clusters, allPoints)
    }

    /** The arena invariant, clusterList well formed, and the active clusters partition allPoints. */
    ghost predicate Valid()
      reads this
    {
      Arena() && ListOk(clusters, clusterList) && Partitioned(points, clusters, allPoints, clusterList)
    }

    /** The field initialisers of Hierarchical.java:30-33. */
    constructor ()
      ensures Valid()
      ensures allPoints == [] && clusterList == [] && numCluster == 0 && numPoint == 0
      ensures points == [] && clusters == []
    {
      allPoints := [];
      clusterList := [];
      numCluster := 0;
      numPoint := 0;
      points := [];
      clusters := [];
    }

    /** The Point constructor: the new point takes id numPoint, then numPoint grows by one. */
    method NewPoint(pos: Coord) returns (p: nat)
      requires PointsOk()
      modifies this
      ensures PointsOk()
      ensures p == old(numPoint) && numPoint == old(numPoint) + 1
      ensures points == old(points) + [Point(pos, p, 0, None)]
      ensures allPoints == old(allPoints) && clusterList == old(clusterList)
      ensures clusters == old(clusters) && numCluster == old(numCluster)
    {
      p := numPoint;
      points := points + [Point(pos, p, 0, None)];
      numPoint := numPoint + 1;
    }

    /**
     * The point-creating loop of readFile (Hierarchical.java:284-288), with the coordinates
     * given instead of parsed: one new point per coordinate pair, appended to allPoints in order.
     */
    method ReadPoints(coords: seq<Coord>)
      requires Arena()
      requires forall i :: 0 <= i < |coords| ==> coords[i].At?
      modifies this
      ensures Arena()
      ensures numPoint == old(numPoint) + |coords|
      ensures points == old(points) + seq(|coords|, i requires 0 <= i < |coords| => Point(coords[i], old(numPoint) + i, 0, None))
      ensures allPoints == old(allPoints) + seq(|coords|, i => old(numPoint) + i)
      ensures clusterList == old(clusterList) && clusters == old(clusters) && numCluster == old(numCluster)
    {
      for i := 0 to |coords|
        invariant Arena()
        invariant numPoint == old(numPoint) + i
        invariant points == old(points) + seq(i, j requires 0 <= j < i => Point(coords[j], old(numPoint) + j, 0, None))
        invariant allPoints == old(allPoints) + seq(i, j => old(numPoint) + j)
        invariant clusterList == old(clusterList) && clusters == old(clusters) && numCluster == old(numCluster)
      {
        var p := NewPoint(coords[i]);
        allPoints := allPoints + [p];
      }
    }

    /**
     * Cluster.calculateCentroid: prevCentroid takes the old centroid and centroid a new point
     * (consuming a point id) at the mean of the members' coordinates, NaN for no members.
     */
    method CalculateCentroid(k: nat)
      requires PointsOk() && k < |clusters| && MembersAt(points, clusters[k].pointList)
      modifies this
      ensures PointsOk()
      ensures points == old(points) + [Point(Mean(Positions(old(points), old(clusters[k].pointList))), old(numPoint), 0, None)]
      ensures clusters == old(clusters)[k := old(clusters[k]).(centroid := Some(old(numPoint)), prevCentroid := old(clusters[k].centroid))]
      ensures allPoints == old(allPoints) && clusterList == old(clusterList) && numCluster == old(numCluster)
    {
      clusters := clusters[k := clusters[k].(prevCentroid := clusters[k].centroid)];
      var pl := clusters[k].pointList;
      ghost var ps := Positions(points, pl);
      var cx, cy := 0.0, 0.0;
      for i := 0 to |pl|
        invariant cx == SumX(ps[..i]) && cy == SumY(ps[..i])
      {
        assert ps[..i + 1][..i] == ps[..i];
        cx := cx + points[pl[i]].pos.x;
        cy := cy + points[pl[i]].pos.y;
      }
      assert ps[..|pl|] == ps;
      var pos := if |pl| == 0 then NaN else At(cx / |pl| as real, cy / |pl| as real);
      var c := NewPoint(pos);
      clusters := clusters[k := clusters[k].(centroid := Some(c))];
    }

    /**
     * The Cluster constructor: the new cluster takes clusterId numCluster, computes its centroid
     * (creating one point), then numCluster grows by one.
     */
    method NewCluster(pl: seq<nat>) returns (k: nat)
      requires Arena() && forall i :: 0 <= i < |pl| ==> pl[i] in allPoints
      modifies this
      ensures Arena()
      ensures k == old(numCluster) && numCluster == old(numCluster) + 1 && numPoint == old(numPoint) + 1
      ensures MembersAt(old(points), pl)
      ensures clusters == old(clusters) + [Cluster(pl, Some(old(numPoint)), None, k)]
      ensures points == old(points) + [Point(Mean(Positions(old(points), pl)), old(numPoint), 0, None)]
      ensures allPoints == old(allPoints) && clusterList == old(clusterList)
    {
      k := numCluster;
      clusters := clusters + [Cluster(pl, None, None, k)];
      CalculateCentroid(k);
      numCluster := numCluster + 1;
    }

    /** Point.setpCluster: the owner becomes cluster k and clustId caches k's clusterId. */
    method SetPCluster(p: nat, k: nat)
      requires p < |points| && k < |clusters|
      modifies this
      ensures points == old(points)[p := old(points[p]).(owner := Some(k), clustId := old(clusters[k].clusterId))]
      ensures allPoints == old(allPoints) && clusterList == old(clusterList) && clusters == old(clusters)
      ensures numPoint == old(numPoint) && numCluster == old(numCluster)
    {
      points := points[p := points[p].(owner := Some(k), clustId := clusters[k].clusterId)];
    }

    /** Point.setClustId. */
    method SetClustId(p: nat, id: int)
      requires p < |points|
      modifies this
      ensures points == old(points)[p := old(points[p]).(clustId := id)]
      ensures allPoints == old(allPoints) && clusterList == old(clusterList) && clusters == old(clusters)
      ensures numPoint == old(numPoint) && numCluster == old(numCluster)
    {
      points := points[p := points[p].(clustId := id)];
    }

    /**
     * Cluster.addPoint on cluster c: a member already there changes nothing; otherwise p is
     * taken out of allPoints and put back at its old index, re-owned by c, appended to c's
     * members, and c's centroid is recomputed. allPoints ends exactly as it was.
     */
    method AddPoint(c: nat, p: nat)
      requires Arena() && c < |clusters| && p in allPoints
      modifies this
      ensures Arena()
      ensures allPoints == old(allPoints) && clusterList == old(clusterList) && numCluster == old(numCluster)
      ensures PosPreserved(old(points), points)
      ensures p in old(clusters[c].pointList) ==>
                points == old(points) && clusters == old(clusters) && numPoint == old(numPoint)
      ensures p !in old(clusters[c].pointList) ==>
                && MembersAt(old(points), old(clusters[c].pointList) + [p])
                && numPoint == old(numPoint) + 1
                && points == old(points)[p := Reown(old(points[p]), c)]
                             + [Point(Mean(Positions(old(points), old(clusters[c].pointList) + [p])), old(numPoint), 0, None)]
                && clusters == old(clusters)[c := old(clusters[c]).(pointList := old(clusters[c].pointList) + [p],
                                                                    centroid := Some(old(numPoint)),
                                                                    prevCentroid := old(clusters[c].centroid))]
    {
      if p !in clusters[c].pointList {
        ghost var p0, c0 := points, clusters;
        ReownFacts(p0, c0, allPoints, c, p);
        var index := IndexOf(allPoints, p);
        allPoints := RemoveFirst(allPoints, p);
        SetPCluster(p, c);
        SetClustId(p, clusters[c].clusterId);
        assert points == Reowned(p0, p, c);
        clusters := clusters[c := clusters[c].(pointList := clusters[c].pointList + [p])];
        allPoints := InsertAt(allPoints, index, p);
        RemoveFirstThenReinsert(old(allPoints), p);
        CalculateCentroid(c);
        ghost var cen := points[|p0|];
        assert clusters == c0[c := c0[c].(pointList := c0[c].pointList + [p], centroid := Some(|p0|),
                                          prevCentroid := c0[c].centroid)];
        AddPointKeepsArena(p0, c0, allPoints, c, p, cen);
      }
    }

    /**
     * Cluster.absorb: cluster c takes over cluster o. Absorbing itself or a cluster no longer
     * listed changes nothing. Otherwise o leaves clusterList, which keeps the order of the rest,
     * and every member of o is added to c in o's order, so c's members are its old members
     * followed by o's, all owned by c. The partition invariant holds again afterwards, and
     * numPoint has grown by one per member of o, for the centroid each addPoint creates. Either
     * way clusterList ends a subsequence of what it was, and points that shared an owner still do.
     */
    method Absorb(c: nat, o: nat)
      requires Valid() && c in clusterList && o < |clusters|
      modifies this
      ensures Valid()
      ensures allPoints == old(allPoints) && numCluster == old(numCluster) && PosPreserved(old(points), points)
      ensures o == c || o !in old(clusterList) ==>
                points == old(points) && clusters == old(clusters) && clusterList == old(clusterList)
      ensures o != c && o in old(clusterList) ==>
                && clusterList == RemoveFirst(old(clusterList), o)
                && |clusterList| == |old(clusterList)| - 1
                && clusters[c].pointList == old(clusters[c].pointList) + old(clusters[o].pointList)
                && (forall i :: 0 <= i < |old(clusters[o].pointList)| ==> points[old(clusters[o].pointList)[i]].owner == Some(c))
                && (forall k :: 0 <= k < |clusters| && k != c ==> clusters[k] == old(clusters[k]))
                && Absorbed(old(points), old(clusters), allPoints, old(clusterList), c, o, points, clusters)
                && numPoint == old(numPoint) + |old(clusters[o].pointList)|
      ensures SubsequenceOf(clusterList, old(clusterList)) && OwnersMerged(old(points), points, allPoints)
    {
      if clusters[o].clusterId == clusters[c].clusterId || o !in clusterList {
        SubsequenceOfSelf(clusterList);
        return;
      }
      ghost var p0, c0, l0 := points, clusters, clusterList;
      AbsorbInvStart(p0, c0, allPoints, l0, c, o);
      AbsorbReadyFromPartition(p0, c0, allPoints, l0, c, o);
      RemoveFirstKeeps(l0, o, c);
      clusterList := RemoveFirst(clusterList, o);
      ghost var l1 := clusterList;
      var index := IndexOf(clusterList, c);
      clusterList := RemoveAt(clusterList, index);
      AbsorbMembers(c, o, p0, c0);
      clusterList := InsertAt(clusterList, index, c);
      ReinsertRestores(l1, index);
      AbsorbInvDone(p0, c0, allPoints, l0, c, o, points, clusters);
      AbsorbKeepsPartition(p0, c0, allPoints, l0, c, o, points, clusters);
      RemoveFirstSubsequence(l0, o);
      AbsorbMergesOwners(p0, c0, allPoints, l0, c, o, points, clusters);
    }

    /**
     * The loop of Cluster.absorb: every member of o, in o's order, is added to c with addPoint.
     * Starting from the heap p0, c0, the loop ends with all of o's members re-owned by c and
     * appended to c's members, c's centroid at their mean, and nothing else changed.
     */
    method AbsorbMembers(c: nat, o: nat, ghost p0: seq<Point>, ghost c0: seq<Cluster>)
      requires Arena() && AbsorbReady(p0, c0, allPoints, c, o)
      requires AbsorbInv(p0, c0, c, o, points, clusters, 0)
      modifies this
      ensures Arena() && AbsorbInv(p0, c0, c, o, points, clusters, |c0[o].pointList|)
      ensures allPoints == old(allPoints) && clusterList == old(clusterList) && numCluster == old(numCluster)
    {
      var ol := clusters[o].pointList;
      for i := 0 to |ol|
        invariant Arena()
        invariant allPoints == old(allPoints) && clusterList == old(clusterList) && numCluster == old(numCluster)
        invariant AbsorbInv(p0, c0, c, o, points, clusters, i)
      {
        AbsorbNextFresh(p0, c0, allPoints, c, o, points, clusters, i);
        ghost var pb, cb := points, clusters;
        AddPoint(c, ol[i]);
        ghost var cen := points[|pb|];
        assert points == Reowned(pb, ol[i], c) + [cen];
        assert clusters == cb[c := cb[c].(pointList := cb[c].pointList + [ol[i]], centroid := Some(|pb|),
                                          prevCentroid := cb[c].centroid)];
        AbsorbInvStep(p0, c0, c, o, pb, cb, i, cen);
      }
    }

    /**
     * The first loop of hierarchical() (Hierarchical.java:189-197): one new cluster per point of
     * allPoints, in order, each holding just that point, owned by it, with the point itself as
     * centroid. Each round creates two points: the empty cluster's centroid and the singleton's.
     */
    method InitClusters()
      requires Arena() && clusters == [] && clusterList == []
      modifies this
      ensures Valid()
      ensures allPoints == old(allPoints) && PosPreserved(old(points), points)
      ensures |clusterList| == |allPoints| && |clusters| == |allPoints|
      ensures numPoint == old(numPoint) + 2 * |allPoints|
      ensures forall j :: 0 <= j < |allPoints| ==>
                && clusterList[j] == j && clusters[j].pointList == [allPoints[j]]
                && points[allPoints[j]].owner == Some(j)
                && clusters[j].centroid.Some? && clusters[j].centroid.value < |points|
                && points[clusters[j].centroid.value].pos == points[allPoints[j]].pos
    {
      InitInvStart(points, allPoints);
      for i := 0 to |allPoints|
        invariant Arena() && allPoints == old(allPoints)
        invariant InitInv(old(points), allPoints, points, clusters, clusterList, i)
      {
        var point := allPoints[i];
        ghost var pa, ca, la := points, clusters, clusterList;
        var c := NewCluster([]);
        ghost var cen0 := points[|pa|];
        assert points == pa + [cen0];
        ghost var pb, cb := points, clusters;
        AddPoint(c, point);
        ghost var cen := points[|pb|];
        assert [] + [point] == [point];
        assert points == Reowned(pb, point, c) + [cen];
        assert clusters == (ca + [Cluster([], Some(|pa|), None, i)])[i := Cluster([point], Some(|pa| + 1), Some(|pa|), i)];
        clusterList := clusterList + [c];
        InitStep(old(points), allPoints, pa, ca, la, i, cen0, cen);
      }
      InitDone(old(points), allPoints, points, clusters, clusterList);
      InitCentroids(old(points), allPoints, points, clusters, clusterList);
    }

    /**
     * The merge loop of hierarchical() (Hierarchical.java:199-248): while more than
     * NUM_CLUSTERS_FINAL clusters are active, each pass walks clusterList by position cNum,
     * finds the nearest point outside the cluster at that position and absorbs that point's
     * cluster, as long as more than NUM_CLUSTERS_FINAL clusters remain. The partition invariant
     * holds throughout and exactly NUM_CLUSTERS_FINAL clusters remain when more were active.
     * No cluster is created: the survivors were listed at the start, in the same relative order,
     * and points that shared a cluster at the start still share one.
     */
    method MergeLoop()
      requires Valid()
      modifies this
      ensures Valid()
      ensures allPoints == old(allPoints) && PosPreserved(old(points), points)
      ensures |clusterList| == if |old(clusterList)| > NumClustersFinal then NumClustersFinal else |old(clusterList)|
      ensures |old(clusterList)| <= NumClustersFinal ==>
                clusterList == old(clusterList) && points == old(points) && clusters == old(clusters)
      ensures numCluster == old(numCluster)
      ensures SubsequenceOf(clusterList, old(clusterList)) && OwnersMerged(old(points), points, allPoints)
    {
      SubsequenceOfSelf(clusterList);
      while |clusterList| > NumClustersFinal
        invariant Valid() && allPoints == old(allPoints) && PosPreserved(old(points), points)
        invariant numCluster == old(numCluster)
        invariant SubsequenceOf(clusterList, old(clusterList)) && OwnersMerged(old(points), points, allPoints)
        invariant |old(clusterList)| > NumClustersFinal ==> |clusterList| >= NumClustersFinal
        invariant |old(clusterList)| <= NumClustersFinal ==>
                    clusterList == old(clusterList) && points == old(points) && clusters == old(clusters)
        decreases |clusterList|
      {
        ghost var start := |clusterList|;
        var cNum := 0;
        while cNum < |clusterList|
          invariant Valid() && allPoints == old(allPoints) && PosPreserved(old(points), points)
          invariant NumClustersFinal <= |clusterList| <= start
          invariant cNum > 0 ==> |clusterList| < start
          invariant numCluster == old(numCluster)
          invariant SubsequenceOf(clusterList, old(clusterList)) && OwnersMerged(old(points), points, allPoints)
          decreases |clusterList| - cNum
        {
          var c := clusterList[cNum];
          ScanReadyFromPartition(points, clusters, allPoints, clusterList, c);
          ActiveOfListed(points, clusters, allPoints, clusterList, c);
          var closestPoint, shortestDist := FindClosest(points, allPoints, clusters[c].pointList, c);
          var closestCluster := points[closestPoint].owner.value;
          if |clusterList| > NumClustersFinal {
            ghost var pb, lb := points, clusterList;
            Absorb(c, closestCluster);
            SubsequenceTrans(clusterList, lb, old(clusterList));
            OwnersMergedTrans(old(points), pb, points, allPoints);
          }
          cNum := cNum + 1;
        }
      }
    }

    /**
     * hierarchical() on a fresh engine, with the points given as coordinates in place of the
     * input file: every coordinate pair becomes a point of allPoints in order, and the run ends
     * with the points partitioned into NUM_CLUSTERS_FINAL clusters, or one cluster per point
     * when there are fewer points than that. The final clusters are among the singletons the
     * first loop created.
     */
    method Run(coords: seq<Coord>)
      requires Valid() && allPoints == [] && clusterList == [] && clusters == []
      requires forall i :: 0 <= i < |coords| ==> coords[i].At?
      modifies this
      ensures Valid()
      ensures |allPoints| == |coords|
      ensures forall i :: 0 <= i < |coords| ==> points[allPoints[i]].pos == coords[i]
      ensures |clusterList| == if |coords| > NumClustersFinal then NumClustersFinal else |coords|
      ensures forall k :: k in clusterList ==> k < |coords|
    {
      ReadPoints(coords);
      ghost var pr, ar := points, allPoints;
      forall i | 0 <= i < |coords|
        ensures ar[i] < |pr| && pr[ar[i]].pos == coords[i]
      {
        assert ar[i] == old(numPoint) + i;
        assert pr[ar[i]] == Point(coords[i], old(numPoint) + i, 0, None);
      }
      InitClusters();
      ghost var pi := points;
      MergeLoop();
      PosPreservedTrans(pr, pi, points);
    }
  }
}
