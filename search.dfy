/**
 * The nearest-foreign-point search of Hierarchical.hierarchical (Hierarchical.java:208-238):
 * for the members of one cluster, scan allPoints for the closest point owned by another
 * cluster, with the listOffset restart, the shortestDist == 0 seeding and the strict
 * less-than tie-break exactly as the loop is written.
 */
module Search {
  import opened Clustering

  /** Every point of allPoints exists, has coordinates, is owned, and caches its owner's id in clustId. */
  ghost predicate Listed(points: seq<Point>, allPoints: seq<nat>)
  {
    forall t :: 0 <= t < |allPoints| ==>
      allPoints[t] < |points| && points[allPoints[t]].pos.At? && points[allPoints[t]].owner.Some?
      && points[allPoints[t]].clustId == points[allPoints[t]].owner.value
  }

  /** Every member exists, has coordinates and is owned by cluster c, whose id it caches. */
  ghost predicate OwnedBy(points: seq<Point>, members: seq<nat>, c: nat)
  {
    forall i :: 0 <= i < |members| ==>
      members[i] < |points| && points[members[i]].pos.At?
      && points[members[i]].owner == Some(c) && points[members[i]].clustId == c
  }

  /**
   * What the search needs: allPoints is not empty (allPoints.get(0)), ids are identities, and
   * when the cluster has members some point of allPoints lies outside it, so that the
   * listOffset scan stops before running off the end of the list.
   */
  ghost predicate ScanReady(points: seq<Point>, allPoints: seq<nat>, members: seq<nat>, c: nat)
  {
    && |allPoints| > 0
    && (forall i :: 0 <= i < |points| ==> points[i].id == i)
    && Listed(points, allPoints)
    && OwnedBy(points, members, c)
    && (|members| > 0 ==> exists t :: 0 <= t < |allPoints| && points[allPoints[t]].owner != Some(c))
  }

  /**
   * In a partitioned heap with two active clusters or more, the member list of every active
   * cluster is ready for the search.
   */
  lemma ScanReadyFromPartition(points: seq<Point>, clusters: seq<Cluster>, allPoints: seq<nat>, clusterList: seq<nat>, c: nat)
    requires HeapOk(points, clusters, allPoints, clusterList) && Partitioned(points, clusters, allPoints, clusterList)
    requires c in clusterList && |clusterList| >= 2
    ensures c < |clusters| && ScanReady(points, allPoints, clusters[c].pointList, c)
  {
    ForeignPointExists(points, clusters, allPoints, clusterList, c);
    var j :| 0 <= j < |clusterList| && clusterList[j] == c;
    assert ActiveOk(points, clusters[c], c);
  }

  /**
   * allPoints[k] lies outside cluster c, no point outside c is nearer to m, and every point
   * outside c that comes before position k is strictly farther from m.
   */
  ghost predicate FirstNearestAt(points: seq<Point>, allPoints: seq<nat>, m: nat, c: nat, k: nat)
    requires Listed(points, allPoints) && m < |points| && points[m].pos.At?
  {
    && k < |allPoints| && points[allPoints[k]].owner != Some(c)
    && (forall t :: 0 <= t < |allPoints| && points[allPoints[t]].owner != Some(c) ==>
          GetDistance(points[m], points[allPoints[k]]) <= GetDistance(points[m], points[allPoints[t]]))
    && (forall t :: 0 <= t < k && points[allPoints[t]].owner != Some(c) ==>
          GetDistance(points[m], points[allPoints[k]]) < GetDistance(points[m], points[allPoints[t]]))
  }

  /** The strict tie-break makes the first nearest position unique. */
  lemma FirstNearestUnique(points: seq<Point>, allPoints: seq<nat>, m: nat, c: nat, k1: nat, k2: nat)
    requires Listed(points, allPoints) && m < |points| && points[m].pos.At?
    requires FirstNearestAt(points, allPoints, m, c, k1) && FirstNearestAt(points, allPoints, m, c, k2)
    ensures k1 == k2
  {
  }

  /**
   * For a member m of cluster c and a listed point q, canPointsMerge(m, q) holds exactly when q
   * is owned by another cluster: the merge gate is the "foreign point" test.
   */
  lemma CanMergeIffForeign(points: seq<Point>, m: nat, q: nat, c: nat)
    requires m < |points| && q < |points| && points[m].id == m && points[q].id == q
    requires points[m].owner == Some(c) && points[m].clustId == c
    requires points[q].owner.Some? && points[q].clustId == points[q].owner.value
    ensures CanPointsMerge(points, m, q) <==> points[q].owner != Some(c)
  {
    if points[q].owner != Some(c) {
      assert m != q;
    }
  }

  /**
   * Hierarchical.java:208-238 for the cluster c whose member list is members. The result is a
   * point of allPoints outside c at the distance shortest from one of the members; no point
   * outside c past position 0 is nearer to the last member; and for a singleton cluster the
   * result is the first nearest point outside it. With more members the scan of every member
   * after the first starts at position 1 and keeps the earlier members' shortest distance as
   * its bar, so the result need not be the nearest pair over all members.
   */
  method FindClosest(points: seq<Point>, allPoints: seq<nat>, members: seq<nat>, ghost c: nat)
    returns (closest: nat, shortest: real)
    requires ScanReady(points, allPoints, members, c)
    ensures closest in allPoints && closest < |points|
    ensures |members| == 0 ==> closest == allPoints[0] && shortest == 0.0
    ensures |members| > 0 ==> points[closest].owner != Some(c)
    ensures |members| > 0 ==>
              exists j :: 0 <= j < |members| && shortest == GetDistance(points[members[j]], points[closest])
    ensures |members| > 0 ==>
              forall t :: 1 <= t < |allPoints| && points[allPoints[t]].owner != Some(c) ==>
                shortest <= GetDistance(points[members[|members| - 1]], points[allPoints[t]])
    ensures |members| == 1 ==>
              exists k: nat :: FirstNearestAt(points, allPoints, members[0], c, k) && closest == allPoints[k]
  {
    ghost var t: nat := 0;
    if |members| > 0 {
      t :| 0 <= t < |allPoints| && points[allPoints[t]].owner != Some(c);
    }
    closest := allPoints[0];
    shortest := 0.0;
    ghost var kc: nat := 0;
    ghost var who: nat := 0;
    var j := 0;
    while j < |members|
      invariant 0 <= j <= |members|
      invariant kc < |allPoints| && closest == allPoints[kc]
      invariant j == 0 ==> kc == 0 && shortest == 0.0
      invariant j > 0 ==> points[closest].owner != Some(c)
      invariant j > 0 ==> who < j && shortest == GetDistance(points[members[who]], points[closest])
      invariant j > 0 ==>
                  forall i :: 1 <= i < |allPoints| && points[allPoints[i]].owner != Some(c) ==>
                    shortest <= GetDistance(points[members[j - 1]], points[allPoints[i]])
      invariant j == 1 ==> FirstNearestAt(points, allPoints, members[0], c, kc)
    {
      var m := members[j];
      if shortest == 0.0 {
        shortest := GetDistance(points[m], points[closest]);
        who := j;
      }
      var listOffset := 0;
      while !CanPointsMerge(points, m, closest)
        invariant listOffset <= t < |allPoints|
        invariant kc < |allPoints| && closest == allPoints[kc]
        invariant j == 0 ==> kc == listOffset
        invariant j > 0 ==> listOffset == 0 && points[closest].owner != Some(c)
        invariant forall i :: 0 <= i < listOffset ==> points[allPoints[i]].owner == Some(c)
        invariant who <= j && shortest == GetDistance(points[members[who]], points[closest])
        decreases t - listOffset
      {
        CanMergeIffForeign(points, m, closest, c);
        listOffset := listOffset + 1;
        closest := allPoints[listOffset];
        kc := listOffset;
        shortest := GetDistance(points[m], points[allPoints[listOffset]]);
        who := j;
      }
      CanMergeIffForeign(points, m, closest, c);
      for i := 1 + listOffset to |allPoints|
        invariant kc < |allPoints| && closest == allPoints[kc]
        invariant points[closest].owner != Some(c)
        invariant who <= j && shortest == GetDistance(points[members[who]], points[closest])
        invariant forall i' :: 1 + listOffset <= i' < i && points[allPoints[i']].owner != Some(c) ==>
                    shortest <= GetDistance(points[m], points[allPoints[i']])
        invariant j == 0 ==> kc < i && who == 0
        invariant j == 0 ==>
                    forall i' :: 0 <= i' < i && points[allPoints[i']].owner != Some(c) ==>
                      shortest <= GetDistance(points[m], points[allPoints[i']])
        invariant j == 0 ==>
                    forall i' :: 0 <= i' < kc && points[allPoints[i']].owner != Some(c) ==>
                      shortest < GetDistance(points[m], points[allPoints[i']])
      {
        var point := allPoints[i];
        var dist := GetDistance(points[m], points[point]);
        if dist < shortest && CanPointsMerge(points, m, point) {
          CanMergeIffForeign(points, m, point, c);
          shortest := dist;
          closest := point;
          kc := i;
          who := j;
        } else if points[point].owner != Some(c) {
          CanMergeIffForeign(points, m, point, c);
        }
      }
      j := j + 1;
    }
  }
}
