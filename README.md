# Hierarchical clustering engine, modelled in Dafny

This project models the clustering engine of `Hierarchical.java`, an agglomerative clusterer
over points in the plane. The engine keeps two lists: `allPoints`, every input point in input
order, and `clusterList`, the active clusters. Each `Cluster` holds a `pointList` of members
and a `centroid`, which is itself a `Point`. Each `Point` knows its owning cluster (`pCluster`)
and caches that cluster's id (`clustId`). Two counters, `numPoint` and `numCluster`, hand out
ids to new points and clusters.

`hierarchical()` works in two phases:

- It first makes one singleton cluster per point, in input order.
- It then repeats passes over `clusterList`. For the cluster at position `cNum`, it finds the
  nearest point owned by another cluster and absorbs that point's cluster. It stops once only
  `NUM_CLUSTERS_FINAL` (2) clusters remain.

## How the model is laid out

- `lists.dfy` (module `JavaLists`): the `java.util.List` operations the engine uses
  (`indexOf`, `remove(int)`, `remove(Object)`, `add(int, E)`) as functions on sequences. It
  also proves the facts about them that `addPoint` and `absorb` rely on.
- `geometry.dfy` (module `Geometry`): coordinates as exact reals, the mean computed by
  `calculateCentroid`, and the squared distance.
- `clustering.dfy` (module `Clustering`): the `Point` and `Cluster` records, `getDistance`,
  `canPointsMerge`, and the heap invariants as predicates on values. The invariants are:
  - the arena invariant;
  - each active cluster is well formed;
  - the partition invariant: every point is in exactly one active cluster.
- `search.dfy` (module `Search`): the nearest-foreign-point search of the merge loop, as a
  method over values.
- `partition.dfy` (module `Partition`): value-level lemmas showing that `addPoint`, `absorb`
  and the first loop of `hierarchical()` keep the invariants.
- `engine.dfy` (module `Engine`): the class `Hierarchical`. Its fields are `allPoints`,
  `clusterList`, `numCluster` and `numPoint`, plus two arenas:
  - `points`: every `Point` object created so far;
  - `clusters`: every `Cluster` object created so far.

  A Java reference is an index into its arena. A field update on an object is an update of
  its arena entry. A point's index is its `id` and a cluster's index is its `clusterId`, so
  Java's identity `equals` is index equality. The constructors, `calculateCentroid`,
  `addPoint`, `absorb` and both loops of `hierarchical()` are methods that update these fields
  in place.

Where the engine's behaviour differs from what a reader might expect, the model follows the
code:

- `addPoint` recomputes the centroid after every point it adds. `absorb` calls it once per
  member, so absorbing `k` points creates `k` centroid points, and each one consumes a point
  id.
- `new Cluster(new ArrayList<>())` computes the centroid of an empty list, which is
  `0.0 / 0`. The model gives that centroid the coordinate `NaN`.
- `absorb` does not clear the absorbed cluster's `pointList`. That cluster just leaves
  `clusterList`, and its old members are owned by the absorbing cluster.
- The search seeds `shortestDist` with the first member's distance to `allPoints[0]`, even
  when that point is a member of the same cluster. The `listOffset` loop then moves the seed
  forward to the first point of another cluster.
- For every member after the first, the search starts its scan at position 1. It keeps the
  earlier members' `shortestDist` as the bar to beat, except when that distance is 0: then
  it is replaced by the new member's distance to the current `closestPoint`
  (Hierarchical.java:215-217). Both the skipped position 0 and this reset mean that, for a
  cluster of several points, the chosen point need not be the nearest over all member/point
  pairs. It is:
  - a point of another cluster;
  - at the recorded distance from one of the members;
  - no farther from the last member than any point of another cluster past position 0.
  For a singleton cluster it is exactly the first nearest point of another cluster.
- Each pass lets the cluster at each position absorb its own nearest foreign cluster, and
  the walk by position skips the cluster that moves left when an earlier one is removed. The
  final two clusters are therefore not a global single-linkage cut. Following
  Hierarchical.java:199-248 by hand on the points (0,0), (1,0), (0,1), (10,10), (11,10),
  (10,11), read in that order, gives the clusters {(0,1), (0,0), (1,0), (11,10), (10,10)} and
  {(10,11)}, not the two triples. In the first pass the cluster of (0,1) absorbs the cluster
  of (0,0), and so the cluster of (10,10) is skipped. The cluster of (11,10) then absorbs it.
  In the second pass the left cluster, first in `clusterList`, finds (10,10) nearest and
  absorbs the cluster of (11,10), which leaves two clusters.
- With at least three points, each pass absorbs at least one cluster. The loop therefore ends
  with exactly two clusters. With two points or fewer, no pass runs and every point stays in
  its own cluster.

## Model

| member | source | states |
|---|---|---|
| JavaLists.IndexOf | src/com/cjhammons/Hierarchical.java:137 | `indexOf` gives -1 exactly when the element is absent. Otherwise it gives a position holding the element with no earlier occurrence. |
| JavaLists.RemoveAt | src/com/cjhammons/Hierarchical.java:138 | `remove(int)` makes the list one element shorter. |
| JavaLists.RemoveAtShifts | src/com/cjhammons/Hierarchical.java:138 | After `remove(int)`, earlier elements keep their positions and later ones move one place left. |
| JavaLists.InsertAt | src/com/cjhammons/Hierarchical.java:142 | `add(int, E)` makes the list one element longer, with the element at the index. |
| JavaLists.InsertAtShifts | src/com/cjhammons/Hierarchical.java:142 | After `add(int, E)`, earlier elements keep their positions and later ones move one place right. |
| JavaLists.RemoveFirst | src/com/cjhammons/Hierarchical.java:136 | `remove(Object)` leaves a list without the element unchanged. It shortens a list with the element by exactly one. |
| JavaLists.RemoveFirstCounts | src/com/cjhammons/Hierarchical.java:136 | `remove(Object)` takes away exactly one occurrence of the element, as multisets, and adds nothing. |
| JavaLists.RemoveFirstFrom | src/com/cjhammons/Hierarchical.java:136 | Every element left after `remove(Object)` was in the list before. |
| JavaLists.ReinsertRestores | src/com/cjhammons/Hierarchical.java:137-142 | Removing position `i` and reinserting the same element at `i` gives back the same list, order included. |
| JavaLists.RemoveFirstThenReinsert | src/com/cjhammons/Hierarchical.java:151-155 | `addPoint`'s `indexOf`, `remove(p)`, `add(index, p)` sequence leaves `allPoints` exactly as it was. |
| JavaLists.RemoveFirstDistinct | src/com/cjhammons/Hierarchical.java:136 | On a list without repeats, `remove(Object)` keeps it without repeats. It removes the element and keeps every other element. |
| JavaLists.RemoveFirstKeeps | src/com/cjhammons/Hierarchical.java:136-137 | Removing `other` from `clusterList` keeps every other cluster, so the `indexOf(this)` that follows finds `this`. |
| JavaLists.RemoveFirstKeepsOrder | src/com/cjhammons/Hierarchical.java:136-142 | After `absorb` removes `other`, the clusters that stay keep their relative order, the absorbing cluster included. |
| JavaLists.IndexOfDistinct | src/com/cjhammons/Hierarchical.java:137 | In a list without repeats, `indexOf` finds each element at its own position. |
| JavaLists.RemoveFirstShift | src/com/cjhammons/Hierarchical.java:205-206 | After an absorb, a cluster listed after the absorbed one moves one position left and an earlier one keeps its position. So the pass loop's `cNum++` skips a cluster when the absorbed cluster sat before `cNum`. |
| JavaLists.SubsequenceOfSelf | src/com/cjhammons/Hierarchical.java:201-248 | A `clusterList` without repeats is a subsequence of itself: the merge loop's starting point. |
| JavaLists.RemoveFirstSubsequence | src/com/cjhammons/Hierarchical.java:136 | `clusterList.remove(other)` on a list without repeats leaves a subsequence: every survivor was listed, in the same relative order. |
| JavaLists.SubsequenceTrans | src/com/cjhammons/Hierarchical.java:241-243 | Successive absorbs compose: a subsequence of a subsequence of a list is a subsequence of it. |
| Geometry.Mean | src/com/cjhammons/Hierarchical.java:101-112 | The centroid is NaN exactly for an empty member list, which is the `0.0 / 0` case. |
| Geometry.MeanOfOne | src/com/cjhammons/Hierarchical.java:195 | The centroid of a single point is that point. |
| Geometry.SumsAppend | src/com/cjhammons/Hierarchical.java:104-109 | The coordinate sums of a concatenation are the sums of the parts. |
| Geometry.MeanOfUnion | src/com/cjhammons/Hierarchical.java:139-141 | After an absorb, the absorbing cluster's centroid is the size-weighted mean of the two old centroids. |
| Geometry.SqDist | src/com/cjhammons/Hierarchical.java:305-308 | The squared distance is never negative and is zero between equal coordinates. |
| Geometry.SqDistSymmetric | src/com/cjhammons/Hierarchical.java:305-308 | The distance does not depend on the argument order. |
| Clustering.GetDistance | src/com/cjhammons/Hierarchical.java:305-308 | `getDistance` is never negative and is zero between points at the same coordinates. |
| Clustering.GetDistanceSymmetric | src/com/cjhammons/Hierarchical.java:305-308 | `getDistance(a, b) == getDistance(b, a)`. |
| Clustering.CanPointsMerge | src/com/cjhammons/Hierarchical.java:261-272 | `canPointsMerge(a, b)` holds exactly when the two points differ in id, in `clustId` and in owning cluster. The identity test never decides on its own. It requires `a` to be owned whenever the third test is reached. |
| Clustering.PosPreservedTrans | src/com/cjhammons/Hierarchical.java:48-53 | Coordinates kept from one arena to the next, and from that one to a third, are kept from the first to the third. |
| Clustering.PositionsFrame | src/com/cjhammons/Hierarchical.java:48-53 | Creating points changes no existing coordinate, so no member list's coordinates change. |
| Clustering.MembersAtFromArena | src/com/cjhammons/Hierarchical.java:104-108 | A member list drawn from `allPoints` names only existing points with coordinates. |
| Clustering.ExactlyOneCluster | src/com/cjhammons/Hierarchical.java:189-248 | Under the partition invariant, every point of `allPoints` is a member of exactly one active cluster. |
| Clustering.ForeignPointExists | src/com/cjhammons/Hierarchical.java:221-225 | With two active clusters or more, every active cluster has a point outside it. So the `listOffset` loop stops inside `allPoints`. |
| Search.ScanReadyFromPartition | src/com/cjhammons/Hierarchical.java:205-212 | In a partitioned heap with two clusters or more, every listed cluster meets what the search needs. `allPoints` is non-empty, every point is owned, the members are owned by the cluster, and a foreign point exists. |
| Search.FirstNearestUnique | src/com/cjhammons/Hierarchical.java:233 | With the strict `<` tie-break, the first nearest foreign position is unique. |
| Search.CanMergeIffForeign | src/com/cjhammons/Hierarchical.java:221-233 | For a member of cluster `c`, `canPointsMerge` with a listed point holds exactly when that point belongs to another cluster. |
| Search.FindClosest | src/com/cjhammons/Hierarchical.java:208-238 | Without members, the result is `allPoints.get(0)` at distance 0. Otherwise the result is a listed point of another cluster, at `shortestDist` from one of the members. No foreign point past position 0 is nearer to the last member. For a singleton cluster, the result is the first nearest foreign point, later ties losing. |
| Partition.ReownFacts | src/com/cjhammons/Hierarchical.java:59-70 | Re-owning a listed point keeps every id and every coordinate. |
| Partition.AddPointKeepsArena | src/com/cjhammons/Hierarchical.java:149-159 | `addPoint` of a new member keeps the arena invariant and all coordinates. |
| Partition.ActiveOfListed | src/com/cjhammons/Hierarchical.java:206 | Every cluster that `clusterList` holds is active and well formed. |
| Partition.ActiveOkFrame | src/com/cjhammons/Hierarchical.java:48-53 | A well-formed cluster stays well formed when its members keep their owner and new points are created. |
| Partition.AbsorbedOwners | src/com/cjhammons/Hierarchical.java:139-141 | After an absorb, `other`'s points are owned by the absorbing cluster and every other point keeps its owner. |
| Partition.AbsorbMergesOwners | src/com/cjhammons/Hierarchical.java:139-141 | An absorb only merges clusters: listed points that shared an owner before share one after. |
| Partition.OwnersMergedTrans | src/com/cjhammons/Hierarchical.java:241-243 | Successive absorbs only merge: sharing an owner survives any number of them. |
| Partition.AbsorbingActive | src/com/cjhammons/Hierarchical.java:139-141 | After an absorb, the absorbing cluster is well formed. Its members are distinct and owned by it, and its centroid is their mean. |
| Partition.BystanderActive | src/com/cjhammons/Hierarchical.java:131-143 | An absorb leaves every other active cluster well formed. |
| Partition.AbsorbReadyFromPartition | src/com/cjhammons/Hierarchical.java:139-140 | The members of two distinct active clusters are distinct listed points, and no member of `other` is a member of `this`. |
| Partition.AbsorbNextFresh | src/com/cjhammons/Hierarchical.java:139-150 | Each member of `other` that `absorb` adds is listed and not yet a member, so `addPoint` never takes its early return. |
| Partition.AbsorbInvStart | src/com/cjhammons/Hierarchical.java:139 | Before `absorb`'s loop, the heap is in the loop's initial state. |
| Partition.AbsorbInvStep | src/com/cjhammons/Hierarchical.java:139-141 | One `addPoint` of `absorb`'s loop moves the loop state from `i` to `i + 1` members added. |
| Partition.AbsorbInvDone | src/com/cjhammons/Hierarchical.java:139-142 | When the loop ends, every member of `other` is appended in order and owned by the absorbing cluster. |
| Partition.AbsorbKeepsPartition | src/com/cjhammons/Hierarchical.java:131-143 | `absorb` keeps the arena and `clusterList` invariants and the partition of `allPoints` by the active clusters. |
| Partition.InitInvStart | src/com/cjhammons/Hierarchical.java:189 | Before the first loop, no point has an owner. |
| Partition.InitStep | src/com/cjhammons/Hierarchical.java:191-196 | One round of the first loop makes cluster `i` the active singleton of `allPoints[i]` and leaves the earlier clusters well formed. |
| Partition.InitDone | src/com/cjhammons/Hierarchical.java:189-197 | After the first loop, the heap is partitioned into one singleton cluster per point. |
| Partition.InitCentroids | src/com/cjhammons/Hierarchical.java:192-195 | After the first loop, each singleton's centroid is at its one point. |
| Engine.Hierarchical.constructor | src/com/cjhammons/Hierarchical.java:30-33 | A new engine has empty lists, zero counters and a valid heap. |
| Engine.Hierarchical.NewPoint | src/com/cjhammons/Hierarchical.java:48-53 | A new point takes id `numPoint`, which then grows by one. The point has no owner and its `clustId` is 0. |
| Engine.Hierarchical.ReadPoints | src/com/cjhammons/Hierarchical.java:284-288 | One new point per coordinate pair, with consecutive ids, appended to `allPoints` in input order. |
| Engine.Hierarchical.CalculateCentroid | src/com/cjhammons/Hierarchical.java:101-112 | `prevCentroid` takes the old centroid. `centroid` becomes a new point, consuming an id, at the mean of the members' coordinates. |
| Engine.Hierarchical.NewCluster | src/com/cjhammons/Hierarchical.java:90-95 | A new cluster takes `clusterId` `numCluster` and a centroid point at the mean of its list, then `numCluster` grows by one. |
| Engine.Hierarchical.SetPCluster | src/com/cjhammons/Hierarchical.java:67-70 | The owner becomes the cluster and `clustId` its `clusterId`. Nothing else changes. |
| Engine.Hierarchical.SetClustId | src/com/cjhammons/Hierarchical.java:59-61 | `clustId` is overwritten and nothing else changes. |
| Engine.Hierarchical.AddPoint | src/com/cjhammons/Hierarchical.java:149-159 | A present member changes nothing. Otherwise the point is re-owned by the cluster and appended to its members, and the centroid is recomputed over the new list. `allPoints` keeps its contents and order, and the arena invariant holds. |
| Engine.Hierarchical.Absorb | src/com/cjhammons/Hierarchical.java:131-143 | Equal ids or an unlisted `other` change nothing. Otherwise `clusterList` becomes `clusterList.remove(other)`, one shorter, and the absorbing cluster's members are its old members followed by `other`'s. All of those are owned by it, other clusters are unchanged, and the partition invariant holds again. The heap is the absorbed heap, and `numPoint` grows by one per member of `other`, for the centroid each `addPoint` creates. In both cases the new `clusterList` is a subsequence of the old one, and points that shared an owner still do. |
| Engine.Hierarchical.AbsorbMembers | src/com/cjhammons/Hierarchical.java:139-141 | `absorb`'s loop adds every member of `other` in order. It ends in the state where all of them are re-owned and appended, with the centroid at their mean. |
| Engine.Hierarchical.InitClusters | src/com/cjhammons/Hierarchical.java:189-197 | One singleton cluster per point of `allPoints`, in order, owned by it, with the point's coordinates as centroid. The heap ends partitioned. `numPoint` grows by two per point: the empty cluster's centroid and the singleton's. |
| Engine.Hierarchical.MergeLoop | src/com/cjhammons/Hierarchical.java:199-248 | The merge passes keep the partition invariant and never change `allPoints`. They end with exactly `NUM_CLUSTERS_FINAL` clusters when more were active. Otherwise no pass runs, and the points, the clusters and `clusterList` are unchanged. No cluster is created. The final `clusterList` is a subsequence of the initial one: the survivors were listed before, in the same relative order. Listed points that shared a cluster still share one. |
| Engine.Hierarchical.Run | src/com/cjhammons/Hierarchical.java:185-252 | On a fresh engine, every coordinate pair becomes a point of `allPoints` in order. The run ends partitioned into 2 clusters, or one per point when there are at most 2 points. The final clusters are among the initial singletons. |

## Left out

- `readFile` (Hierarchical.java:277-297): file reading, `Double.parseDouble` and the swallowed
  I/O exceptions are not modelled. The coordinates are a parameter of `ReadPoints` and `Run`.
- `plot`, the `JFrame` superclass and every `System.out.println`: rendering and logging, with
  no effect on the clustering state.
- `calculateShift` (lines 118-120): nothing calls it.
- `removePoint` (lines 161-171): nothing calls it, and its `setpCluster(null)` dereferences
  `null` at line 69.
- The getters (`getClustId`, `getpCluster`, `getClusterId`, `getCentroid`) are field reads. The
  unused `setCentroid` is not modelled.
- Floating point: coordinates, sums and means are exact reals. Rounding, overflow to infinity
  and NaN input coordinates are not modelled. The only NaN is the centroid of an empty list.
- `Math.sqrt` and `Math.pow`: distances are squared distances. `sqrt` is monotone, so every
  comparison the engine makes comes out the same.
- The `int` counters `numPoint` and `numCluster` are unbounded naturals. Their 32-bit
  wrap-around is not modelled.
- `loopCount` only feeds a log line and is not modelled.
- Clustering.GetDistance: the contract does not state that a zero distance implies equal
  coordinates. The search never relies on that direction.
- Geometry.SqDist: as for `GetDistance`, zero is not proved to imply equal coordinates.
- Search.FindClosest: for a cluster of several members, the contract gives no minimum over all
  member/point pairs, because the loop as written does not compute one.
