/**
 * The heap invariants across Hierarchical.Cluster.addPoint (Hierarchical.java:149-159) and
 * Hierarchical.Cluster.absorb (Hierarchical.java:131-143), stated over the arenas as values:
 * addPoint keeps the arena well formed, and absorb keeps every point in exactly one active
 * cluster.
 */
module Partition {
  import opened Geometry
  import opened JavaLists
  import opened Clustering

  /** The point arena after p is re-owned by cluster c. */
  function Reowned(p0: seq<Point>, p: nat, c: nat): seq<Point>
    requires p < |p0|
  {
    p0[p := Reown(p0[p], c)]
  }

  /**
   * Re-owning a listed point p by cluster c keeps every identity and every coordinate, so c's
   * member list extended by p still names points with coordinates, at the same positions.
   */
  lemma ReownFacts(p0: seq<Point>, c0: seq<Cluster>, a: seq<nat>, c: nat, p: nat)
    requires ArenaOk(p0, c0, a) && c < |c0| && p in a
    ensures p < |p0|
    ensures PosPreserved(p0, Reowned(p0, p, c))
    ensures forall i :: 0 <= i < |p0| ==> Reowned(p0, p, c)[i].id == i
    ensures MembersAt(p0, c0[c].pointList + [p]) && MembersAt(Reowned(p0, p, c), c0[c].pointList + [p])
    ensures Positions(Reowned(p0, p, c), c0[c].pointList + [p]) == Positions(p0, c0[c].pointList + [p])
  {
    var pl := c0[c].pointList + [p];
    MembersAtFromArena(p0, c0, a, c);
    assert MembersAt(p0, pl) by {
      forall i | 0 <= i < |pl|
        ensures pl[i] < |p0| && p0[pl[i]].pos.At?
      {
        if i < |pl| - 1 { assert pl[i] == c0[c].pointList[i]; }
      }
    }
    PositionsFrame(p0, Reowned(p0, p, c), pl);
  }

  /**
   * addPoint(p) on cluster c with p not yet a member keeps the arena invariant: p is owned by c
   * and stays listed, c's members grow by p, and the fresh centroid point takes the next id.
   */
  lemma AddPointKeepsArena(p0: seq<Point>, c0: seq<Cluster>, a: seq<nat>, c: nat, p: nat, cen: Point)
    requires ArenaOk(p0, c0, a) && c < |c0| && p in a && cen.id == |p0|
    ensures p < |p0|
    ensures ArenaOk(Reowned(p0, p, c) + [cen],
                    c0[c := c0[c].(pointList := c0[c].pointList + [p], centroid := Some(|p0|), prevCentroid := c0[c].centroid)],
                    a)
    ensures PosPreserved(p0, Reowned(p0, p, c) + [cen])
  {
    ReownFacts(p0, c0, a, c, p);
    var p1 := Reowned(p0, p, c) + [cen];
    var c1 := c0[c := c0[c].(pointList := c0[c].pointList + [p], centroid := Some(|p0|), prevCentroid := c0[c].centroid)];
    forall k, i | 0 <= k < |c1| && 0 <= i < |c1[k].pointList|
      ensures c1[k].pointList[i] in a
    {
      if k == c && i < |c1[k].pointList| - 1 {
        assert c1[k].pointList[i] == c0[c].pointList[i];
      }
    }
    forall t | 0 <= t < |a|
      ensures a[t] < |p1| && p1[a[t]].pos.At? && OwnerOk(p1[a[t]], |c1|)
    {
      assert p1[a[t]] == if a[t] == p then Reown(p0[p], c) else p0[a[t]];
    }
  }

  /** Every cluster of clusterList is active. */
  lemma ActiveOfListed(points: seq<Point>, clusters: seq<Cluster>, allPoints: seq<nat>, clusterList: seq<nat>, k: nat)
    requires HeapOk(points, clusters, allPoints, clusterList) && Partitioned(points, clusters, allPoints, clusterList)
    requires k in clusterList
    ensures k < |clusters| && ActiveOk(points, clusters[k], k)
  {
    var j :| 0 <= j < |clusterList| && clusterList[j] == k;
  }

  /**
   * An active cluster stays active when its members keep their owner and no point's
   * coordinates change: new points may be created around it.
   */
  lemma ActiveOkFrame(p1: seq<Point>, p2: seq<Point>, c: Cluster, k: nat)
    requires ActiveOk(p1, c, k) && PosPreserved(p1, p2)
    requires forall i :: 0 <= i < |c.pointList| ==> p2[c.pointList[i]].owner == Some(k)
    ensures ActiveOk(p2, c, k)
  {
    PositionsFrame(p1, p2, c.pointList);
  }

  /**
   * The heap p1, c1 is the heap p0, c0 after cluster c absorbed cluster o: the members of o are
   * re-owned by c and appended to c's members, c's centroid is a point at the mean of the merged
   * list, and nothing else changes but the fresh centroid points.
   */
  ghost predicate Absorbed(p0: seq<Point>, c0: seq<Cluster>, a: seq<nat>, l0: seq<nat>, c: nat, o: nat,
                           p1: seq<Point>, c1: seq<Cluster>)
  {
    && c in l0 && o in l0 && c != o && c < |c0| && o < |c0|
    && ArenaOk(p1, c1, a) && |c1| == |c0| && |p1| >= |p0|
    && (forall j :: 0 <= j < |p0| ==> p1[j] == if j in c0[o].pointList then Reown(p0[j], c) else p0[j])
    && (forall k :: 0 <= k < |c0| && k != c ==> c1[k] == c0[k])
    && c1[c].pointList == c0[c].pointList + c0[o].pointList
    && c1[c].centroid.Some? && c1[c].centroid.value < |p1|
    && MembersAt(p1, c1[c].pointList)
    && p1[c1[c].centroid.value].pos == Mean(Positions(p1, c1[c].pointList))
  }

  /** After an absorb, the points that o owned are owned by c and every other point keeps its owner. */
  lemma AbsorbedOwners(p0: seq<Point>, c0: seq<Cluster>, a: seq<nat>, l0: seq<nat>, c: nat, o: nat,
                       p1: seq<Point>, c1: seq<Cluster>, t: nat)
    requires HeapOk(p0, c0, a, l0) && Partitioned(p0, c0, a, l0)
    requires Absorbed(p0, c0, a, l0, c, o, p1, c1) && t < |a|
    ensures p0[a[t]].owner.Some?
    ensures a[t] in c0[o].pointList <==> p0[a[t]].owner == Some(o)
    ensures p1[a[t]].owner == if p0[a[t]].owner == Some(o) then Some(c) else p0[a[t]].owner
  {
    var q := a[t];
    ActiveOfListed(p0, c0, a, l0, o);
    if q in c0[o].pointList {
      var i :| 0 <= i < |c0[o].pointList| && c0[o].pointList[i] == q;
    }
  }

  /**
   * Going from the point arena p0 to p1 only merges clusters: points of a that shared an owner
   * in p0 share an owner in p1.
   */
  ghost predicate OwnersMerged(p0: seq<Point>, p1: seq<Point>, a: seq<nat>)
  {
    && (forall t :: 0 <= t < |a| ==> a[t] < |p0| && a[t] < |p1|)
    && (forall t1, t2 :: 0 <= t1 < |a| && 0 <= t2 < |a| && p0[a[t1]].owner == p0[a[t2]].owner ==>
          p1[a[t1]].owner == p1[a[t2]].owner)
  }

  /** An absorb only merges: o's points join c's, and every other point keeps its owner. */
  lemma AbsorbMergesOwners(p0: seq<Point>, c0: seq<Cluster>, a: seq<nat>, l0: seq<nat>, c: nat, o: nat,
                           p1: seq<Point>, c1: seq<Cluster>)
    requires HeapOk(p0, c0, a, l0) && Partitioned(p0, c0, a, l0)
    requires Absorbed(p0, c0, a, l0, c, o, p1, c1)
    ensures OwnersMerged(p0, p1, a)
  {
    forall t1, t2 | 0 <= t1 < |a| && 0 <= t2 < |a| && p0[a[t1]].owner == p0[a[t2]].owner
      ensures p1[a[t1]].owner == p1[a[t2]].owner
    {
      AbsorbedOwners(p0, c0, a, l0, c, o, p1, c1, t1);
      AbsorbedOwners(p0, c0, a, l0, c, o, p1, c1, t2);
    }
  }

  /** Merging twice is merging: OwnersMerged is transitive. */
  lemma OwnersMergedTrans(p0: seq<Point>, p1: seq<Point>, p2: seq<Point>, a: seq<nat>)
    requires OwnersMerged(p0, p1, a) && OwnersMerged(p1, p2, a)
    ensures OwnersMerged(p0, p2, a)
  {
    forall t1, t2 | 0 <= t1 < |a| && 0 <= t2 < |a| && p0[a[t1]].owner == p0[a[t2]].owner
      ensures p2[a[t1]].owner == p2[a[t2]].owner
    {
      assert p1[a[t1]].owner == p1[a[t2]].owner;
    }
  }

  /** After an absorb, the absorbing cluster is active. */
  lemma AbsorbingActive(p0: seq<Point>, c0: seq<Cluster>, a: seq<nat>, l0: seq<nat>, c: nat, o: nat,
                        p1: seq<Point>, c1: seq<Cluster>)
    requires AbsorbReady(p0, c0, a, c, o) && ActiveOk(p0, c0[c], c)
    requires Absorbed(p0, c0, a, l0, c, o, p1, c1)
    ensures ActiveOk(p1, c1[c], c)
  {
    var cl, ol := c0[c].pointList, c0[o].pointList;
    var ml := cl + ol;
    forall x, y | 0 <= x < y < |ml|
      ensures ml[x] != ml[y]
    {
      if y < |cl| {
        assert ml[x] == cl[x] && ml[y] == cl[y];
      } else if x >= |cl| {
        assert ml[x] == ol[x - |cl|] && ml[y] == ol[y - |cl|];
      } else {
        assert ml[x] == cl[x] && ml[y] == ol[y - |cl|];
      }
    }
    forall x | 0 <= x < |ml|
      ensures p1[ml[x]].owner == Some(c)
    {
      if x < |cl| {
        assert ml[x] == cl[x] && p0[cl[x]].owner == Some(c);
      } else {
        assert ml[x] == ol[x - |cl|];
      }
    }
  }

  /** After an absorb, every other active cluster is still active. */
  lemma BystanderActive(p0: seq<Point>, c0: seq<Cluster>, a: seq<nat>, l0: seq<nat>, c: nat, o: nat,
                        p1: seq<Point>, c1: seq<Cluster>, k: nat)
    requires HeapOk(p0, c0, a, l0) && Partitioned(p0, c0, a, l0)
    requires Absorbed(p0, c0, a, l0, c, o, p1, c1)
    requires k in l0 && k != c && k != o
    ensures ActiveOk(p1, c1[k], k)
  {
    ActiveOfListed(p0, c0, a, l0, k);
    ActiveOfListed(p0, c0, a, l0, o);
    assert PosPreserved(p0, p1);
    forall x | 0 <= x < |c0[k].pointList|
      ensures p1[c0[k].pointList[x]].owner == Some(k)
    {
      assert p0[c0[k].pointList[x]].owner == Some(k);
    }
    ActiveOkFrame(p0, p1, c0[k], k);
  }

  /**
   * The state of absorb's loop after the first i members of o were added to c: those members
   * are re-owned by c and appended to c's members, c's centroid is at the mean of its members,
   * one centroid point was created per member added, and nothing else changed.
   */
  ghost predicate AbsorbInv(p0: seq<Point>, c0: seq<Cluster>, c: nat, o: nat, p: seq<Point>, cs: seq<Cluster>, i: nat)
    requires c < |c0| && o < |c0| && i <= |c0[o].pointList|
  {
    && |cs| == |c0| && (forall k :: 0 <= k < |c0| && k != c ==> cs[k] == c0[k])
    && cs[c].pointList == c0[c].pointList + c0[o].pointList[..i]
    && cs[c].centroid.Some? && cs[c].centroid.value < |p|
    && MembersAt(p, cs[c].pointList)
    && p[cs[c].centroid.value].pos == Mean(Positions(p, cs[c].pointList))
    && |p| == |p0| + i && PosPreserved(p0, p)
    && (forall j :: 0 <= j < |p0| ==> p[j] == if j in c0[o].pointList[..i] then Reown(p0[j], c) else p0[j])
  }

  /** Before absorb's loop the active cluster c is its own starting state. */
  lemma AbsorbInvStart(p0: seq<Point>, c0: seq<Cluster>, a: seq<nat>, l0: seq<nat>, c: nat, o: nat)
    requires HeapOk(p0, c0, a, l0) && Partitioned(p0, c0, a, l0)
    requires c in l0 && o in l0 && c != o
    ensures c < |c0| && o < |c0| && AbsorbInv(p0, c0, c, o, p0, c0, 0)
  {
    ActiveOfListed(p0, c0, a, l0, c);
    ActiveOfListed(p0, c0, a, l0, o);
    assert c0[c].pointList + c0[o].pointList[..0] == c0[c].pointList;
  }

  /**
   * What absorb's loop needs to know about the two clusters: c and o are distinct clusters of the
   * arena, and the members of o are distinct listed points, none of them a member of c.
   */
  ghost predicate AbsorbReady(p0: seq<Point>, c0: seq<Cluster>, a: seq<nat>, c: nat, o: nat)
  {
    && c < |c0| && o < |c0| && c != o
    && Distinct(c0[o].pointList)
    && (forall x :: 0 <= x < |c0[o].pointList| ==>
          c0[o].pointList[x] in a && c0[o].pointList[x] < |p0| && c0[o].pointList[x] !in c0[c].pointList)
  }

  /** Two distinct active clusters of a partitioned heap are ready to be merged. */
  lemma AbsorbReadyFromPartition(p0: seq<Point>, c0: seq<Cluster>, a: seq<nat>, l0: seq<nat>, c: nat, o: nat)
    requires HeapOk(p0, c0, a, l0) && Partitioned(p0, c0, a, l0)
    requires c in l0 && o in l0 && c != o
    ensures AbsorbReady(p0, c0, a, c, o)
  {
    ActiveOfListed(p0, c0, a, l0, c);
    ActiveOfListed(p0, c0, a, l0, o);
    var cl, ol := c0[c].pointList, c0[o].pointList;
    forall x, y | 0 <= x < |ol| && 0 <= y < |cl|
      ensures cl[y] != ol[x]
    {
      assert p0[cl[y]].owner == Some(c) && p0[ol[x]].owner == Some(o);
    }
  }

  /**
   * The i-th member of o is a listed point that is not yet a member of c, so the addPoint call
   * of absorb's loop never takes its early return.
   */
  lemma AbsorbNextFresh(p0: seq<Point>, c0: seq<Cluster>, a: seq<nat>, c: nat, o: nat,
                        p: seq<Point>, cs: seq<Cluster>, i: nat)
    requires AbsorbReady(p0, c0, a, c, o)
    requires i < |c0[o].pointList| && AbsorbInv(p0, c0, c, o, p, cs, i)
    ensures c0[o].pointList[i] in a && c0[o].pointList[i] !in cs[c].pointList
  {
    var cl, ol := c0[c].pointList, c0[o].pointList;
    forall x | 0 <= x < |cl + ol[..i]|
      ensures (cl + ol[..i])[x] != ol[i]
    {
      if x < |cl| { assert (cl + ol[..i])[x] == cl[x]; } else { assert (cl + ol[..i])[x] == ol[x - |cl|]; }
    }
  }

  /** One round of absorb's loop: adding the i-th member of o to c gives the state after i + 1 members. */
  lemma AbsorbInvStep(p0: seq<Point>, c0: seq<Cluster>, c: nat, o: nat, p: seq<Point>, cs: seq<Cluster>, i: nat, cen: Point)
    requires c < |c0| && o < |c0| && i < |c0[o].pointList| && AbsorbInv(p0, c0, c, o, p, cs, i)
    requires c0[o].pointList[i] < |p0|
    requires MembersAt(p, cs[c].pointList + [c0[o].pointList[i]])
    requires cen.pos == Mean(Positions(p, cs[c].pointList + [c0[o].pointList[i]]))
    ensures AbsorbInv(p0, c0, c, o, Reowned(p, c0[o].pointList[i], c) + [cen],
                      cs[c := cs[c].(pointList := cs[c].pointList + [c0[o].pointList[i]], centroid := Some(|p|),
                                     prevCentroid := cs[c].centroid)],
                      i + 1)
  {
    var q := c0[o].pointList[i];
    var ol := c0[o].pointList;
    var p1 := Reowned(p, q, c) + [cen];
    var cs1 := cs[c := cs[c].(pointList := cs[c].pointList + [q], centroid := Some(|p|), prevCentroid := cs[c].centroid)];
    assert ol[..i + 1] == ol[..i] + [q];
    assert cs1[c].pointList == c0[c].pointList + ol[..i + 1];
    assert PosPreserved(p, p1);
    PositionsFrame(p, p1, cs1[c].pointList);
    forall j | 0 <= j < |p0|
      ensures p1[j] == if j in ol[..i + 1] then Reown(p0[j], c) else p0[j]
    {
      assert j in ol[..i + 1] <==> j in ol[..i] || j == q;
    }
  }

  /** After absorb's loop every member of o was added: the heap is the absorbed heap. */
  lemma AbsorbInvDone(p0: seq<Point>, c0: seq<Cluster>, a: seq<nat>, l0: seq<nat>, c: nat, o: nat, p: seq<Point>, cs: seq<Cluster>)
    requires c in l0 && o in l0 && c != o && c < |c0| && o < |c0|
    requires AbsorbInv(p0, c0, c, o, p, cs, |c0[o].pointList|) && ArenaOk(p, cs, a)
    requires forall x :: 0 <= x < |c0[o].pointList| ==> c0[o].pointList[x] < |p0|
    ensures Absorbed(p0, c0, a, l0, c, o, p, cs)
    ensures forall x :: 0 <= x < |c0[o].pointList| ==> p[c0[o].pointList[x]].owner == Some(c)
  {
    var ol := c0[o].pointList;
    assert ol[..|ol|] == ol;
    forall x | 0 <= x < |ol|
      ensures p[ol[x]].owner == Some(c)
    {
      assert ol[x] in ol[..|ol|];
    }
  }

  /**
   * Cluster c absorbing the active cluster o leaves the heap partitioned by clusterList without
   * o: every point is still owned by, and a member of, exactly the active cluster that lists it.
   */
  lemma AbsorbKeepsPartition(p0: seq<Point>, c0: seq<Cluster>, a: seq<nat>, l0: seq<nat>, c: nat, o: nat,
                             p1: seq<Point>, c1: seq<Cluster>)
    requires HeapOk(p0, c0, a, l0) && Partitioned(p0, c0, a, l0)
    requires Absorbed(p0, c0, a, l0, c, o, p1, c1)
    ensures HeapOk(p1, c1, a, RemoveFirst(l0, o))
    ensures Partitioned(p1, c1, a, RemoveFirst(l0, o))
  {
    var l1 := RemoveFirst(l0, o);
    RemoveFirstDistinct(l0, o);
    RemoveFirstFrom(l0, o);
    assert ListOk(c1, l1) by {
      forall j | 0 <= j < |l1|
        ensures l1[j] < |c1|
      {
        var k :| 0 <= k < |l0| && l0[k] == l1[j];
      }
    }
    forall t | 0 <= t < |a|
      ensures p1[a[t]].owner.Some? && p1[a[t]].owner.value in l1 && a[t] in c1[p1[a[t]].owner.value].pointList
    {
      AbsorbedOwners(p0, c0, a, l0, c, o, p1, c1, t);
      var k := p0[a[t]].owner.value;
      ActiveOfListed(p0, c0, a, l0, k);
    }
    forall j | 0 <= j < |l1|
      ensures ActiveOk(p1, c1[l1[j]], l1[j])
    {
      if l1[j] == c {
        AbsorbReadyFromPartition(p0, c0, a, l0, c, o);
        ActiveOfListed(p0, c0, a, l0, c);
        AbsorbingActive(p0, c0, a, l0, c, o, p1, c1);
      } else {
        BystanderActive(p0, c0, a, l0, c, o, p1, c1, l1[j]);
      }
    }
  }

  /**
   * The state of the first loop of hierarchical() after i points of allPoints: clusters 0 to
   * i - 1 exist, are listed in order, and each is the active singleton of its point; the points
   * not reached yet have no owner; each round created two points, the empty cluster's centroid
   * and the singleton's; no coordinate has changed.
   */
  ghost predicate InitInv(p0: seq<Point>, a: seq<nat>, p: seq<Point>, cs: seq<Cluster>, l: seq<nat>, i: nat)
  {
    && i <= |a| && |cs| == i && |l| == i && |p| == |p0| + 2 * i && PosPreserved(p0, p)
    && (forall j :: 0 <= j < i ==> l[j] == j && cs[j].pointList == [a[j]])
    && (forall j :: 0 <= j < i ==> ActiveOk(p, cs[j], j))
    && (forall t :: i <= t < |a| ==> a[t] < |p| && p[a[t]].owner == None)
  }

  /** With no cluster created yet, no point has an owner: the loop starts from its invariant. */
  lemma InitInvStart(p0: seq<Point>, a: seq<nat>)
    requires ArenaOk(p0, [], a)
    ensures InitInv(p0, a, p0, [], [], 0)
  {
    forall t | 0 <= t < |a|
      ensures a[t] < |p0| && p0[a[t]].owner == None
    {
      assert OwnerOk(p0[a[t]], 0);
    }
  }

  /**
   * One round of the first loop: new Cluster() with no members appends cluster i and a NaN
   * centroid point cen0, then addPoint(allPoints[i]) re-owns that point by cluster i and appends
   * the new centroid point cen. The loop invariant then holds for i + 1.
   */
  lemma InitStep(p0: seq<Point>, a: seq<nat>, p: seq<Point>, cs: seq<Cluster>, l: seq<nat>, i: nat,
                 cen0: Point, cen: Point)
    requires InitInv(p0, a, p, cs, l, i) && ArenaOk(p, cs, a) && i < |a|
    requires MembersAt(p + [cen0], [a[i]]) && cen.pos == Mean(Positions(p + [cen0], [a[i]]))
    ensures InitInv(p0, a, Reowned(p + [cen0], a[i], i) + [cen],
                    (cs + [Cluster([], Some(|p|), None, i)])[i := Cluster([a[i]], Some(|p| + 1), Some(|p|), i)],
                    l + [i], i + 1)
  {
    var p1 := p + [cen0];
    var p2 := Reowned(p1, a[i], i) + [cen];
    var cs2 := (cs + [Cluster([], Some(|p|), None, i)])[i := Cluster([a[i]], Some(|p| + 1), Some(|p|), i)];
    assert PosPreserved(p, p2);
    assert PosPreserved(p0, p2);
    PositionsFrame(p1, p2, [a[i]]);
    forall j | 0 <= j < i
      ensures ActiveOk(p2, cs2[j], j)
    {
      assert a[j] != a[i];
      assert cs2[j] == cs[j];
      ActiveOkFrame(p, p2, cs[j], j);
    }
    assert ActiveOk(p2, cs2[i], i);
    forall t | i + 1 <= t < |a|
      ensures a[t] < |p2| && p2[a[t]].owner == None
    {
      assert a[t] != a[i];
    }
  }

  /**
   * After the first loop every point of allPoints is the single member of its own active
   * cluster, and clusterList lists those clusters: the heap is partitioned.
   */
  lemma InitDone(p0: seq<Point>, a: seq<nat>, p: seq<Point>, cs: seq<Cluster>, l: seq<nat>)
    requires InitInv(p0, a, p, cs, l, |a|) && ArenaOk(p, cs, a)
    ensures HeapOk(p, cs, a, l) && Partitioned(p, cs, a, l)
  {
    forall t | 0 <= t < |a|
      ensures p[a[t]].owner.Some? && p[a[t]].owner.value in l && a[t] in cs[p[a[t]].owner.value].pointList
    {
      assert ActiveOk(p, cs[t], t) && cs[t].pointList[0] == a[t];
      assert l[t] == t;
    }
  }

  /** After the first loop the centroid of each singleton cluster lies at its one point. */
  lemma InitCentroids(p0: seq<Point>, a: seq<nat>, p: seq<Point>, cs: seq<Cluster>, l: seq<nat>)
    requires InitInv(p0, a, p, cs, l, |a|)
    ensures forall j :: 0 <= j < |a| ==>
              && cs[j].centroid.Some? && cs[j].centroid.value < |p|
              && p[cs[j].centroid.value].pos == p[a[j]].pos
  {
    forall j | 0 <= j < |a|
      ensures cs[j].centroid.Some? && cs[j].centroid.value < |p|
      ensures p[cs[j].centroid.value].pos == p[a[j]].pos
    {
      assert ActiveOk(p, cs[j], j);
      assert Positions(p, [a[j]]) == [p[a[j]].pos];
      MeanOfOne(p[a[j]].pos);
    }
  }
}
