/** Cluster-id assignment across type groups. DBSCAN runs separately on
    each SV-type group (visited in sorted key order) over the rows' linear
    coordinates; its local labels are shifted past a counter carried from
    group to group so that ids of different groups do not meet. */
module Relabel {
  import opened Text
  import opened GroupBy

  /** A row's (cum_pos1, cum_pos2): the two features DBSCAN sees. */
  datatype Point = Point(x: int, y: int)

  type Labeller = seq<Point> -> seq<int>

  /** What the pipeline relies on from DBSCAN.fit_predict: one label per
      point, -1 for noise and otherwise a cluster number from 0. */
  ghost predicate IsLabeller(dbscan: Labeller) {
    forall pts: seq<Point> ::
      |dbscan(pts)| == |pts| && forall j :: 0 <= j < |pts| ==> dbscan(pts)[j] >= -1
  }

  /** The number of rows carrying `key`. */
  function CountKey(keyOf: seq<string>, key: string): (r: nat)
    ensures r <= |keyOf|
    decreases |keyOf|
  {
    if |keyOf| == 0 then 0
    else CountKey(keyOf[..|keyOf| - 1], key) + (if Last(keyOf) == key then 1 else 0)
  }

  /** X = group[['cum_pos1', 'cum_pos2']]: the points of the rows carrying
      `key`, in row order. */
  function GroupPoints(keyOf: seq<string>, pts: seq<Point>, key: string): (r: seq<Point>)
    requires |pts| == |keyOf|
    ensures |r| == CountKey(keyOf, key)
    decreases |keyOf|
  {
    if |keyOf| == 0 then []
    else
      GroupPoints(keyOf[..|keyOf| - 1], pts[..|pts| - 1], key)
        + (if Last(keyOf) == key then [Last(pts)] else [])
  }

  /** A row's place within its own group. */
  function Rank(keyOf: seq<string>, i: nat): nat
    requires i < |keyOf|
  {
    CountKey(keyOf[..i], keyOf[i])
  }

  lemma {:induction false} RankBound(keyOf: seq<string>, i: nat, n: nat)
    requires i < n <= |keyOf|
    ensures Rank(keyOf, i) < CountKey(keyOf[..n], keyOf[i])
    decreases n
  {
    var k := keyOf[i];
    assert keyOf[..n][..n - 1] == keyOf[..n - 1];
    if n - 1 > i {
      RankBound(keyOf, i, n - 1);
    }
  }

  /** The group's points, listed in row order, put row i at its rank. */
  lemma {:induction false} GroupPointAtRank(keyOf: seq<string>, pts: seq<Point>, i: nat, n: nat)
    requires |pts| == |keyOf| && i < n <= |keyOf|
    ensures Rank(keyOf, i) < |GroupPoints(keyOf[..n], pts[..n], keyOf[i])|
    ensures GroupPoints(keyOf[..n], pts[..n], keyOf[i])[Rank(keyOf, i)] == pts[i]
    decreases n
  {
    RankBound(keyOf, i, n);
    assert keyOf[..n][..n - 1] == keyOf[..n - 1];
    assert pts[..n][..n - 1] == pts[..n - 1];
    if n - 1 > i {
      GroupPointAtRank(keyOf, pts, i, n - 1);
    } else {
      assert keyOf[..i + 1][..i] == keyOf[..i];
    }
  }

  /** The labels DBSCAN gives the group of `key`. */
  function GroupLabels(keyOf: seq<string>, pts: seq<Point>, dbscan: Labeller, key: string): (r: seq<int>)
    requires |pts| == |keyOf| && IsLabeller(dbscan)
    ensures |r| == CountKey(keyOf, key)
    ensures forall j :: 0 <= j < |r| ==> r[j] >= -1
  {
    dbscan(GroupPoints(keyOf, pts, key))
  }

  /** The label DBSCAN gives row i within its group. */
  function LocalLabel(keyOf: seq<string>, pts: seq<Point>, dbscan: Labeller, i: nat): (r: int)
    requires |pts| == |keyOf| && IsLabeller(dbscan) && i < |keyOf|
    ensures r >= -1
  {
    RankBound(keyOf, i, |keyOf|);
    assert keyOf[..|keyOf|] == keyOf;
    GroupLabels(keyOf, pts, dbscan, keyOf[i])[Rank(keyOf, i)]
  }

  /** np.where(cluster_tmp != -1, cluster_tmp + cluster_counter + 1, -1). */
  function NewLabel(l: int, counter: int): int {
    if l == -1 then -1 else l + counter + 1
  }

  function Max(a: int, b: int): int {
    if a >= b then a else b
  }

  /** group['cluster'].max(): no shifted label of the group exceeds it
      (MaxNewAttained: one of them equals it). */
  function MaxNew(ls: seq<int>, counter: int): (r: int)
    requires |ls| > 0
    ensures forall j :: 0 <= j < |ls| ==> NewLabel(ls[j], counter) <= r
    decreases |ls|
  {
    if |ls| == 1 then NewLabel(ls[0], counter)
    else
      var m := MaxNew(ls[..|ls| - 1], counter);
      assert forall j :: 0 <= j < |ls| - 1 ==> ls[..|ls| - 1][j] == ls[j];
      Max(m, NewLabel(Last(ls), counter))
  }

  lemma {:induction false} MaxNewAttained(ls: seq<int>, counter: int) returns (j: nat)
    requires |ls| > 0
    ensures j < |ls| && NewLabel(ls[j], counter) == MaxNew(ls, counter)
    decreases |ls|
  {
    if |ls| == 1 {
      j := 0;
    } else {
      var init := ls[..|ls| - 1];
      j := MaxNewAttained(init, counter);
      if MaxNew(ls, counter) == NewLabel(Last(ls), counter) {
        j := |ls| - 1;
      } else {
        assert init[j] == ls[j];
      }
    }
  }

  lemma MaxNewSnoc(ls: seq<int>, j: nat, counter: int)
    requires j < |ls|
    ensures MaxNew(ls[..j + 1], counter) ==
      if j == 0 then NewLabel(ls[0], counter) else Max(MaxNew(ls[..j], counter), NewLabel(ls[j], counter))
  {
    assert ls[..j + 1][..j] == ls[..j];
  }

  // ---------------------------------------------------------------------
  // The counter carried from group to group, over the groups' labels

  /** Every group has at least one row, and every label is -1 or a
      cluster number. */
  predicate NonEmptyGroups(gl: seq<seq<int>>) {
    forall k :: 0 <= k < |gl| ==> |gl[k]| > 0 && forall j :: 0 <= j < |gl[k]| ==> gl[k][j] >= -1
  }

  /** DBSCAN found at least one cluster in the group. */
  predicate HasCluster(ls: seq<int>) {
    exists j :: 0 <= j < |ls| && ls[j] != -1
  }

  /** cluster_counter after the first k groups, as the source computes it:
      it becomes the largest id of the last group, which is -1 when that
      group is all noise. */
  function Counter(gl: seq<seq<int>>, k: nat): int
    requires NonEmptyGroups(gl) && k <= |gl|
    decreases k
  {
    if k == 0 then 0 else MaxNew(gl[k - 1], Counter(gl, k - 1))
  }

  /** cluster_counter when it is only ever raised: an all-noise group
      leaves it where it was. */
  function CounterFixed(gl: seq<seq<int>>, k: nat): int
    requires NonEmptyGroups(gl) && k <= |gl|
    decreases k
  {
    if k == 0 then 0
    else
      var c := CounterFixed(gl, k - 1);
      Max(c, MaxNew(gl[k - 1], c))
  }

  /** With labels of at least -1, the counter never drops below -1. */
  lemma {:induction false} CounterFloor(gl: seq<seq<int>>, k: nat)
    requires NonEmptyGroups(gl) && k <= |gl|
    ensures Counter(gl, k) >= -1
    decreases k
  {
    if k > 0 {
      CounterFloor(gl, k - 1);
      assert NewLabel(gl[k - 1][0], Counter(gl, k - 1)) >= -1;
    }
  }

  /** While every group has a cluster, the counter strictly rises. */
  lemma {:induction false} CounterIncreasing(gl: seq<seq<int>>, a: nat, b: nat)
    requires NonEmptyGroups(gl) && forall k :: 0 <= k < |gl| ==> HasCluster(gl[k])
    requires a < b <= |gl|
    ensures Counter(gl, a) < Counter(gl, b)
    decreases b - a
  {
    var c := Counter(gl, b - 1);
    assert HasCluster(gl[b - 1]);
    var j :| 0 <= j < |gl[b - 1]| && gl[b - 1][j] != -1;
    assert NewLabel(gl[b - 1][j], c) <= MaxNew(gl[b - 1], c);
    if a < b - 1 {
      CounterIncreasing(gl, a, b - 1);
    }
  }

  /** The raised-only counter never falls. */
  lemma {:induction false} CounterFixedMonotone(gl: seq<seq<int>>, a: nat, b: nat)
    requires NonEmptyGroups(gl) && a <= b <= |gl|
    ensures CounterFixed(gl, a) <= CounterFixed(gl, b)
    decreases b - a
  {
    if a < b {
      CounterFixedMonotone(gl, a, b - 1);
    }
  }

  /** The raised-only counter is the one the source computes whenever no
      group is all noise. */
  lemma {:induction false} CounterFixedAgrees(gl: seq<seq<int>>, k: nat)
    requires NonEmptyGroups(gl) && forall g :: 0 <= g < |gl| ==> HasCluster(gl[g])
    requires k <= |gl|
    ensures CounterFixed(gl, k) == Counter(gl, k)
    decreases k
  {
    if k > 0 {
      CounterFixedAgrees(gl, k - 1);
      CounterIncreasing(gl, k - 1, k);
    }
  }

  /** A clustered id of an earlier group lies below every clustered id of
      a later one, provided no group is all noise. */
  lemma IdsApart(gl: seq<seq<int>>, gi: nat, a: nat, gj: nat, b: nat)
    requires NonEmptyGroups(gl) && forall k :: 0 <= k < |gl| ==> HasCluster(gl[k])
    requires gi < gj < |gl| && a < |gl[gi]| && b < |gl[gj]|
    requires gl[gi][a] != -1 && gl[gj][b] != -1
    ensures NewLabel(gl[gi][a], Counter(gl, gi)) < NewLabel(gl[gj][b], Counter(gl, gj))
  {
    assert NewLabel(gl[gi][a], Counter(gl, gi)) <= Counter(gl, gi + 1);
    if gi + 1 < gj {
      CounterIncreasing(gl, gi + 1, gj);
    }
  }

  /** With the raised-only counter the same holds for any labels. */
  lemma FixedIdsApart(gl: seq<seq<int>>, gi: nat, a: nat, gj: nat, b: nat)
    requires NonEmptyGroups(gl)
    requires gi < gj < |gl| && a < |gl[gi]| && b < |gl[gj]|
    requires gl[gi][a] != -1 && gl[gj][b] != -1
    ensures NewLabel(gl[gi][a], CounterFixed(gl, gi)) < NewLabel(gl[gj][b], CounterFixed(gl, gj))
  {
    assert NewLabel(gl[gi][a], CounterFixed(gl, gi)) <= CounterFixed(gl, gi + 1);
    CounterFixedMonotone(gl, gi + 1, gj);
  }

  // ---------------------------------------------------------------------
  // Groups of rows

  /** The groups in visiting order (ascending: see GroupKeysAscending). */
  function GroupKeys(keyOf: seq<string>): seq<string> {
    StrKeys(keyOf)
  }

  /** Each key is visited once. */
  lemma GroupKeysDistinct(keyOf: seq<string>, a: nat, b: nat)
    requires a < |GroupKeys(keyOf)| && b < |GroupKeys(keyOf)|
    requires GroupKeys(keyOf)[a] == GroupKeys(keyOf)[b]
    ensures a == b
  {
    StrLessSortKeyOrder();
    AscendingDistinct(GroupKeys(keyOf), StrLess, a, b);
  }

  /** Every row's key is visited. */
  lemma GroupKeysCover(keyOf: seq<string>, i: nat)
    requires i < |keyOf|
    ensures keyOf[i] in GroupKeys(keyOf)
  {
  }

  /** Only keys that occur are visited, so no group is empty. */
  lemma GroupKeysOccur(keyOf: seq<string>)
    ensures forall k :: 0 <= k < |GroupKeys(keyOf)| ==> CountKey(keyOf, GroupKeys(keyOf)[k]) > 0
  {
    forall k | 0 <= k < |GroupKeys(keyOf)| ensures CountKey(keyOf, GroupKeys(keyOf)[k]) > 0 {
      CountKeyPositive(keyOf, GroupKeys(keyOf)[k]);
    }
  }

  lemma GroupKeysAscending(keyOf: seq<string>)
    ensures Ascending(GroupKeys(keyOf), StrLess)
  {
  }

  lemma {:induction false} CountKeyPositive(keyOf: seq<string>, key: string)
    requires key in keyOf
    ensures CountKey(keyOf, key) > 0
    decreases |keyOf|
  {
    if Last(keyOf) != key {
      var init := keyOf[..|keyOf| - 1];
      assert keyOf == init + [Last(keyOf)];
      CountKeyPositive(init, key);
    }
  }

  /** The labels DBSCAN gives each group, in visiting order. */
  function LabelsByGroup(keyOf: seq<string>, pts: seq<Point>, dbscan: Labeller): (r: seq<seq<int>>)
    requires |pts| == |keyOf| && IsLabeller(dbscan)
    ensures |r| == |GroupKeys(keyOf)| && NonEmptyGroups(r)
    ensures forall k :: 0 <= k < |r| ==> r[k] == GroupLabels(keyOf, pts, dbscan, GroupKeys(keyOf)[k])
  {
    var ks := GroupKeys(keyOf);
    GroupKeysOccur(keyOf);
    seq(|ks|, k requires 0 <= k < |ks| => GroupLabels(keyOf, pts, dbscan, ks[k]))
  }

  /** The position of row i's group in visiting order. */
  function GroupOf(keyOf: seq<string>, i: nat): (k: nat)
    requires i < |keyOf|
    ensures k < |GroupKeys(keyOf)| && GroupKeys(keyOf)[k] == keyOf[i]
  {
    GroupKeysCover(keyOf, i);
    Position(GroupKeys(keyOf), keyOf[i])
  }

  /** Row i belongs to the k-th group exactly when its key is the k-th key. */
  lemma GroupOfKey(keyOf: seq<string>, i: nat, k: nat)
    requires i < |keyOf| && k < |GroupKeys(keyOf)|
    ensures GroupOf(keyOf, i) == k <==> keyOf[i] == GroupKeys(keyOf)[k]
  {
    if keyOf[i] == GroupKeys(keyOf)[k] {
      GroupKeysDistinct(keyOf, GroupOf(keyOf, i), k);
    }
  }

  /** The cluster id the source assigns to row i. */
  function ClusterOf(keyOf: seq<string>, pts: seq<Point>, dbscan: Labeller, i: nat): int
    requires |pts| == |keyOf| && IsLabeller(dbscan) && i < |keyOf|
  {
    NewLabel(LocalLabel(keyOf, pts, dbscan, i), Counter(LabelsByGroup(keyOf, pts, dbscan), GroupOf(keyOf, i)))
  }

  /** The cluster id row i gets when the counter is only ever raised. */
  function ClusterOfFixed(keyOf: seq<string>, pts: seq<Point>, dbscan: Labeller, i: nat): int
    requires |pts| == |keyOf| && IsLabeller(dbscan) && i < |keyOf|
  {
    NewLabel(LocalLabel(keyOf, pts, dbscan, i), CounterFixed(LabelsByGroup(keyOf, pts, dbscan), GroupOf(keyOf, i)))
  }

  /** Row i's own group's labels, and its label at its rank within them. */
  lemma RowLabels(keyOf: seq<string>, pts: seq<Point>, dbscan: Labeller, i: nat)
    requires |pts| == |keyOf| && IsLabeller(dbscan) && i < |keyOf|
    ensures Rank(keyOf, i) < |GroupLabels(keyOf, pts, dbscan, keyOf[i])|
    ensures LabelsByGroup(keyOf, pts, dbscan)[GroupOf(keyOf, i)] == GroupLabels(keyOf, pts, dbscan, keyOf[i])
    ensures LocalLabel(keyOf, pts, dbscan, i) == GroupLabels(keyOf, pts, dbscan, keyOf[i])[Rank(keyOf, i)]
  {
    RankBound(keyOf, i, |keyOf|);
    assert keyOf[..|keyOf|] == keyOf;
  }

  /** X = group[features] for one key. */
  method CollectGroup(keyOf: seq<string>, pts: seq<Point>, key: string) returns (X: seq<Point>)
    requires |pts| == |keyOf|
    ensures X == GroupPoints(keyOf, pts, key)
  {
    X := [];
    var i := 0;
    while i < |keyOf|
      invariant 0 <= i <= |keyOf|
      invariant X == GroupPoints(keyOf[..i], pts[..i], key)
    {
      assert keyOf[..i + 1][..i] == keyOf[..i] && pts[..i + 1][..i] == pts[..i];
      if keyOf[i] == key {
        X := X + [pts[i]];
      }
      i := i + 1;
    }
    assert keyOf[..i] == keyOf && pts[..i] == pts;
  }

  /** group.index: the rows carrying `key`, in row order. */
  function GroupIndex(keyOf: seq<string>, key: string): (r: seq<nat>)
    ensures |r| == CountKey(keyOf, key)
    ensures forall t :: 0 <= t < |r| ==> r[t] < |keyOf| && keyOf[r[t]] == key
    ensures forall a, b :: 0 <= a < b < |r| ==> r[a] < r[b]
    decreases |keyOf|
  {
    if |keyOf| == 0 then []
    else
      var n := |keyOf|;
      GroupIndex(keyOf[..n - 1], key) + (if Last(keyOf) == key then [n - 1] else [])
  }

  /** Row i is listed in its group's index at its rank. */
  lemma {:induction false} IndexAtRank(keyOf: seq<string>, i: nat, n: nat)
    requires i < n <= |keyOf|
    ensures Rank(keyOf, i) < |GroupIndex(keyOf[..n], keyOf[i])|
    ensures GroupIndex(keyOf[..n], keyOf[i])[Rank(keyOf, i)] == i
    decreases n
  {
    RankBound(keyOf, i, n);
    assert keyOf[..n][..n - 1] == keyOf[..n - 1];
    if n - 1 > i {
      IndexAtRank(keyOf, i, n - 1);
    } else {
      assert keyOf[..i + 1][..i] == keyOf[..i];
    }
  }

  /** One pass of the group loop's body after DBSCAN,
      df.loc[group.index, 'cluster'] = group['cluster']: the rows carrying
      `key` get their shifted labels, every other row keeps its id, and the
      new counter is the group's largest id. */
  method WriteGroup(keyOf: seq<string>, key: string, counter: int, labels: seq<int>, cluster: seq<int>)
      returns (cluster': seq<int>, mx: int)
    requires |labels| == CountKey(keyOf, key) > 0
    requires |cluster| == |keyOf|
    ensures |cluster'| == |keyOf|
    ensures forall i :: 0 <= i < |keyOf| && keyOf[i] == key ==>
      Rank(keyOf, i) < |labels| && cluster'[i] == NewLabel(labels[Rank(keyOf, i)], counter)
    ensures forall i :: 0 <= i < |keyOf| && keyOf[i] != key ==> cluster'[i] == cluster[i]
    ensures mx == MaxNew(labels, counter)
  {
    var idx := GroupIndex(keyOf, key);
    cluster' := cluster;
    mx := -1;
    var t := 0;
    while t < |idx|
      invariant 0 <= t <= |idx| && |cluster'| == |keyOf|
      invariant forall u :: 0 <= u < t ==> cluster'[idx[u]] == NewLabel(labels[u], counter)
      invariant forall i :: 0 <= i < |keyOf| && (forall u :: 0 <= u < t ==> idx[u] != i) ==>
        cluster'[i] == cluster[i]
      invariant t > 0 ==> mx == MaxNew(labels[..t], counter)
    {
      var nl := NewLabel(labels[t], counter);
      cluster' := cluster'[idx[t] := nl];
      MaxNewSnoc(labels, t, counter);
      mx := if t == 0 then nl else Max(mx, nl);
      t := t + 1;
    }
    assert labels[..t] == labels;
    assert keyOf[..|keyOf|] == keyOf;
    forall i | 0 <= i < |keyOf| && keyOf[i] == key
      ensures Rank(keyOf, i) < |labels| && cluster'[i] == NewLabel(labels[Rank(keyOf, i)], counter)
    {
      IndexAtRank(keyOf, i, |keyOf|);
    }
  }

  /** The relabelling loop over type groups: DBSCAN per group, shift past
      cluster_counter, update cluster_counter to the group's max id, and
      write the group's ids back to the 'cluster' column. */
  method AssignClusters(keyOf: seq<string>, pts: seq<Point>, dbscan: Labeller)
      returns (cluster: seq<int>)
    requires |pts| == |keyOf| && IsLabeller(dbscan)
    ensures |cluster| == |keyOf|
    ensures forall i :: 0 <= i < |keyOf| ==> cluster[i] == ClusterOf(keyOf, pts, dbscan, i)
  {
    var keys := GroupKeys(keyOf);
    ghost var gl := LabelsByGroup(keyOf, pts, dbscan);
    cluster := seq(|keyOf|, _ => -1);
    var counter := 0;
    var k := 0;
    while k < |keys|
      invariant 0 <= k <= |keys| && |cluster| == |keyOf|
      invariant counter == Counter(gl, k)
      invariant forall i :: 0 <= i < |keyOf| && GroupOf(keyOf, i) < k ==>
        cluster[i] == ClusterOf(keyOf, pts, dbscan, i)
    {
      var X := CollectGroup(keyOf, pts, keys[k]);
      var labels := dbscan(X);
      assert labels == gl[k];
      var cluster', mx := WriteGroup(keyOf, keys[k], counter, labels, cluster);
      forall i | 0 <= i < |keyOf| && GroupOf(keyOf, i) < k + 1
        ensures cluster'[i] == ClusterOf(keyOf, pts, dbscan, i)
      {
        GroupOfKey(keyOf, i, k);
        if keyOf[i] == keys[k] {
          RowLabels(keyOf, pts, dbscan, i);
        }
      }
      cluster, counter := cluster', mx;
      k := k + 1;
    }
  }

  /** The relabelling loop with the counter only ever raised: an all-noise
      group leaves cluster_counter where it was. */
  method AssignClustersFixed(keyOf: seq<string>, pts: seq<Point>, dbscan: Labeller)
      returns (cluster: seq<int>)
    requires |pts| == |keyOf| && IsLabeller(dbscan)
    ensures |cluster| == |keyOf|
    ensures forall i :: 0 <= i < |keyOf| ==> cluster[i] == ClusterOfFixed(keyOf, pts, dbscan, i)
  {
    var keys := GroupKeys(keyOf);
    ghost var gl := LabelsByGroup(keyOf, pts, dbscan);
    cluster := seq(|keyOf|, _ => -1);
    var counter := 0;
    var k := 0;
    while k < |keys|
      invariant 0 <= k <= |keys| && |cluster| == |keyOf|
      invariant counter == CounterFixed(gl, k)
      invariant forall i :: 0 <= i < |keyOf| && GroupOf(keyOf, i) < k ==>
        cluster[i] == ClusterOfFixed(keyOf, pts, dbscan, i)
    {
      var X := CollectGroup(keyOf, pts, keys[k]);
      var labels := dbscan(X);
      assert labels == gl[k];
      var cluster', mx := WriteGroup(keyOf, keys[k], counter, labels, cluster);
      forall i | 0 <= i < |keyOf| && GroupOf(keyOf, i) < k + 1
        ensures cluster'[i] == ClusterOfFixed(keyOf, pts, dbscan, i)
      {
        GroupOfKey(keyOf, i, k);
        if keyOf[i] == keys[k] {
          RowLabels(keyOf, pts, dbscan, i);
        }
      }
      cluster, counter := cluster', Max(counter, mx);
      k := k + 1;
    }
  }

  // ---------------------------------------------------------------------
  // What the assigned ids mean

  /** Noise stays noise, and nothing else becomes noise. */
  lemma NoiseStaysNoise(keyOf: seq<string>, pts: seq<Point>, dbscan: Labeller, i: nat)
    requires |pts| == |keyOf| && IsLabeller(dbscan) && i < |keyOf|
    ensures ClusterOf(keyOf, pts, dbscan, i) == -1 <==> LocalLabel(keyOf, pts, dbscan, i) == -1
  {
    CounterFloor(LabelsByGroup(keyOf, pts, dbscan), GroupOf(keyOf, i));
  }

  /** A clustered row's id lies above the counter its group started from
      and at most at the counter its group hands on. */
  lemma IdWithinGroupRange(keyOf: seq<string>, pts: seq<Point>, dbscan: Labeller, i: nat)
    requires |pts| == |keyOf| && IsLabeller(dbscan) && i < |keyOf|
    requires LocalLabel(keyOf, pts, dbscan, i) != -1
    ensures Counter(LabelsByGroup(keyOf, pts, dbscan), GroupOf(keyOf, i)) < ClusterOf(keyOf, pts, dbscan, i)
    ensures ClusterOf(keyOf, pts, dbscan, i) <= Counter(LabelsByGroup(keyOf, pts, dbscan), GroupOf(keyOf, i) + 1)
  {
    RowLabels(keyOf, pts, dbscan, i);
  }

  /** Every type group has at least one row DBSCAN did not call noise. */
  ghost predicate EveryGroupClusters(keyOf: seq<string>, pts: seq<Point>, dbscan: Labeller)
    requires |pts| == |keyOf| && IsLabeller(dbscan)
  {
    var gl := LabelsByGroup(keyOf, pts, dbscan);
    forall k :: 0 <= k < |gl| ==> HasCluster(gl[k])
  }

  /** When no type group is all noise, the ids of a later group are all
      larger than those of an earlier one, so two clustered rows of
      different types never share an id. */
  lemma LaterGroupsHigherIds(keyOf: seq<string>, pts: seq<Point>, dbscan: Labeller, i: nat, j: nat)
    requires |pts| == |keyOf| && IsLabeller(dbscan) && EveryGroupClusters(keyOf, pts, dbscan)
    requires i < |keyOf| && j < |keyOf| && GroupOf(keyOf, i) < GroupOf(keyOf, j)
    requires LocalLabel(keyOf, pts, dbscan, i) != -1 && LocalLabel(keyOf, pts, dbscan, j) != -1
    ensures ClusterOf(keyOf, pts, dbscan, i) < ClusterOf(keyOf, pts, dbscan, j)
  {
    RowLabels(keyOf, pts, dbscan, i);
    RowLabels(keyOf, pts, dbscan, j);
    IdsApart(LabelsByGroup(keyOf, pts, dbscan), GroupOf(keyOf, i), Rank(keyOf, i), GroupOf(keyOf, j), Rank(keyOf, j));
  }

  /** With the counter only ever raised, a later group's ids exceed an
      earlier group's whatever DBSCAN returns: ids of different types never
      meet. */
  lemma FixedLaterGroupsHigherIds(keyOf: seq<string>, pts: seq<Point>, dbscan: Labeller, i: nat, j: nat)
    requires |pts| == |keyOf| && IsLabeller(dbscan)
    requires i < |keyOf| && j < |keyOf| && GroupOf(keyOf, i) < GroupOf(keyOf, j)
    requires LocalLabel(keyOf, pts, dbscan, i) != -1 && LocalLabel(keyOf, pts, dbscan, j) != -1
    ensures ClusterOfFixed(keyOf, pts, dbscan, i) < ClusterOfFixed(keyOf, pts, dbscan, j)
  {
    RowLabels(keyOf, pts, dbscan, i);
    RowLabels(keyOf, pts, dbscan, j);
    FixedIdsApart(LabelsByGroup(keyOf, pts, dbscan), GroupOf(keyOf, i), Rank(keyOf, i), GroupOf(keyOf, j), Rank(keyOf, j));
  }

  /** The fix changes no id when no type group is all noise. */
  lemma FixedAgrees(keyOf: seq<string>, pts: seq<Point>, dbscan: Labeller, i: nat)
    requires |pts| == |keyOf| && IsLabeller(dbscan) && EveryGroupClusters(keyOf, pts, dbscan)
    requires i < |keyOf|
    ensures ClusterOfFixed(keyOf, pts, dbscan, i) == ClusterOf(keyOf, pts, dbscan, i)
  {
    CounterFixedAgrees(LabelsByGroup(keyOf, pts, dbscan), GroupOf(keyOf, i));
  }

  // ---------------------------------------------------------------------
  // The as-written counter lets ids of different types meet

  /** The rows of a counterexample: two DEL rows, one DUP row, four INV rows. */
  function CollisionRows(): seq<string> {
    ["DEL", "DEL", "DUP", "INV", "INV", "INV", "INV"]
  }

  /** A DBSCAN outcome for it: the DEL pair forms one cluster, the single
      DUP is noise, the INV rows form two clusters of two. */
  function CollisionDbscan(X: seq<Point>): seq<int> {
    if |X| == 2 then [0, 0] else if |X| == 4 then [0, 0, 1, 1] else seq(|X|, _ => -1)
  }

  function CollisionPoints(): seq<Point> {
    seq(7, _ => Point(0, 0))
  }

  lemma CollisionLabeller()
    ensures IsLabeller(CollisionDbscan)
  {
  }

  /** How the three type names compare as Python strings. */
  lemma CollisionOrder()
    ensures StrLess("DEL", "DUP") && StrLess("DUP", "INV") && StrLess("DEL", "INV")
    ensures !StrLess("DUP", "DEL") && !StrLess("INV", "DUP") && !StrLess("INV", "DEL")
  {
    assert "DEL"[0] == 'D' && "DUP"[0] == 'D' && "INV"[0] == 'I';
    assert "DEL"[1..] == "EL" && "DUP"[1..] == "UP";
    assert StrLess("EL", "UP") && !StrLess("UP", "EL");
  }

  lemma CollisionKeysHead()
    ensures SortKeyOrder(StrLess)
    ensures Keys(CollisionRows()[..3], StrLess) == ["DEL", "DUP"]
  {
    var keyOf := CollisionRows();
    StrLessSortKeyOrder();
    CollisionOrder();
    assert keyOf[..1][..0] == keyOf[..0];
    assert Keys(keyOf[..1], StrLess) == ["DEL"];
    assert keyOf[..2][..1] == keyOf[..1];
    assert Keys(keyOf[..2], StrLess) == ["DEL"];
    assert keyOf[..3][..2] == keyOf[..2] && Last(keyOf[..3]) == "DUP";
    assert ["DEL"][1..] == [];
    assert Insert(["DEL"], "DUP", StrLess) == ["DEL"] + Insert([], "DUP", StrLess);
  }

  /** Inserting INV after DEL and DUP appends it. */
  lemma InsertInvLast()
    ensures SortKeyOrder(StrLess) && Ascending(["DEL", "DUP"], StrLess)
    ensures Insert(["DEL", "DUP"], "INV", StrLess) == ["DEL", "DUP", "INV"]
  {
    StrLessSortKeyOrder();
    CollisionOrder();
    assert ["DEL", "DUP"][1..] == ["DUP"] && ["DUP"][1..] == [];
    assert Insert(["DUP"], "INV", StrLess) == ["DUP"] + Insert([], "INV", StrLess) == ["DUP", "INV"];
    assert Insert(["DEL", "DUP"], "INV", StrLess) == ["DEL"] + Insert(["DUP"], "INV", StrLess);
  }

  lemma CollisionKeysMiddle()
    ensures SortKeyOrder(StrLess)
    ensures Keys(CollisionRows()[..4], StrLess) == ["DEL", "DUP", "INV"]
  {
    var keyOf := CollisionRows();
    CollisionKeysHead();
    InsertInvLast();
    assert keyOf[..4][..3] == keyOf[..3] && Last(keyOf[..4]) == "INV";
  }

  lemma CollisionKeys()
    ensures GroupKeys(CollisionRows()) == ["DEL", "DUP", "INV"]
  {
    var keyOf := CollisionRows();
    var ks := ["DEL", "DUP", "INV"];
    CollisionKeysMiddle();
    assert StrLess("DEL", "INV") && StrLess("DUP", "INV");
    InsertPresent(ks, 2, StrLess);
    assert keyOf[..5][..4] == keyOf[..4];
    assert Keys(keyOf[..5], StrLess) == ks;
    assert keyOf[..6][..5] == keyOf[..5];
    assert Keys(keyOf[..6], StrLess) == ks;
    assert keyOf[..7][..6] == keyOf[..6];
    assert keyOf[..7] == keyOf;
  }

  lemma CollisionCounts()
    ensures CountKey(CollisionRows(), "DEL") == 2
    ensures CountKey(CollisionRows(), "DUP") == 1
    ensures CountKey(CollisionRows(), "INV") == 4
    ensures Rank(CollisionRows(), 0) == 0 && Rank(CollisionRows(), 6) == 3
  {
    var keyOf := CollisionRows();
    assert keyOf[..1][..0] == [];
    assert CountKey(keyOf[..1], "DEL") == 1 && CountKey(keyOf[..1], "DUP") == 0 && CountKey(keyOf[..1], "INV") == 0;
    assert keyOf[..2][..1] == keyOf[..1];
    assert CountKey(keyOf[..2], "DEL") == 2 && CountKey(keyOf[..2], "DUP") == 0 && CountKey(keyOf[..2], "INV") == 0;
    assert keyOf[..3][..2] == keyOf[..2];
    assert CountKey(keyOf[..3], "DEL") == 2 && CountKey(keyOf[..3], "DUP") == 1 && CountKey(keyOf[..3], "INV") == 0;
    assert keyOf[..4][..3] == keyOf[..3];
    assert CountKey(keyOf[..4], "DEL") == 2 && CountKey(keyOf[..4], "DUP") == 1 && CountKey(keyOf[..4], "INV") == 1;
    assert keyOf[..5][..4] == keyOf[..4];
    assert CountKey(keyOf[..5], "DEL") == 2 && CountKey(keyOf[..5], "DUP") == 1 && CountKey(keyOf[..5], "INV") == 2;
    assert keyOf[..6][..5] == keyOf[..5];
    assert CountKey(keyOf[..6], "DEL") == 2 && CountKey(keyOf[..6], "DUP") == 1 && CountKey(keyOf[..6], "INV") == 3;
    assert keyOf[..6] == keyOf[..|keyOf| - 1];
  }

  lemma CollisionGroupSizes()
    ensures |GroupPoints(CollisionRows(), CollisionPoints(), "DEL")| == 2
    ensures |GroupPoints(CollisionRows(), CollisionPoints(), "DUP")| == 1
    ensures |GroupPoints(CollisionRows(), CollisionPoints(), "INV")| == 4
  {
    CollisionCounts();
  }

  lemma CollisionGroups()
    ensures IsLabeller(CollisionDbscan)
    ensures |LabelsByGroup(CollisionRows(), CollisionPoints(), CollisionDbscan)| == 3
    ensures LabelsByGroup(CollisionRows(), CollisionPoints(), CollisionDbscan)[0] == [0, 0]
    ensures LabelsByGroup(CollisionRows(), CollisionPoints(), CollisionDbscan)[1] == [-1]
    ensures LabelsByGroup(CollisionRows(), CollisionPoints(), CollisionDbscan)[2] == [0, 0, 1, 1]
  {
    CollisionLabeller();
    CollisionKeys();
    CollisionGroupSizes();
  }


  /** The counters over the counterexample's groups: the source's counter
      falls back to -1 after the all-noise DUP group, the raised-only one
      stays at 1. */
  lemma CollisionCounters(gl: seq<seq<int>>)
    requires |gl| == 3 && gl[0] == [0, 0] && gl[1] == [-1] && gl[2] == [0, 0, 1, 1]
    ensures NonEmptyGroups(gl)
    ensures Counter(gl, 0) == 0 && Counter(gl, 2) == -1
    ensures CounterFixed(gl, 0) == 0 && CounterFixed(gl, 2) == 1
  {
    assert [0, 0][..1] == [0];
    assert MaxNew([0, 0], 0) == 1;
    assert Counter(gl, 1) == 1 && CounterFixed(gl, 1) == 1;
    assert MaxNew([-1], 1) == -1;
  }

  /** The as-written counter rule breaks once a type group is all noise:
      the counter falls to -1 and the next group's ids restart from 0. Here
      the DEL pair gets id 1, the DUP group is all noise, and the second
      INV cluster gets id 1 again. */
  lemma AllNoiseGroupCollision()
    ensures IsLabeller(CollisionDbscan)
    ensures CollisionRows()[0] != CollisionRows()[6]
    ensures ClusterOf(CollisionRows(), CollisionPoints(), CollisionDbscan, 0) == 1
    ensures ClusterOf(CollisionRows(), CollisionPoints(), CollisionDbscan, 6) == 1
  {
    CollisionGroups();
    CollisionKeys();
    CollisionCounts();
    var keyOf, pts := CollisionRows(), CollisionPoints();
    var gl := LabelsByGroup(keyOf, pts, CollisionDbscan);
    CollisionCounters(gl);
    GroupOfKey(keyOf, 0, 0);
    GroupOfKey(keyOf, 6, 2);
    RowLabels(keyOf, pts, CollisionDbscan, 0);
    RowLabels(keyOf, pts, CollisionDbscan, 6);
  }

  /** With the counter only ever raised, the same rows get ids 1 and 3. */
  lemma FixedCollisionApart()
    ensures IsLabeller(CollisionDbscan)
    ensures ClusterOfFixed(CollisionRows(), CollisionPoints(), CollisionDbscan, 0) == 1
    ensures ClusterOfFixed(CollisionRows(), CollisionPoints(), CollisionDbscan, 6) == 3
  {
    CollisionGroups();
    CollisionKeys();
    CollisionCounts();
    var keyOf, pts := CollisionRows(), CollisionPoints();
    var gl := LabelsByGroup(keyOf, pts, CollisionDbscan);
    CollisionCounters(gl);
    GroupOfKey(keyOf, 0, 0);
    GroupOfKey(keyOf, 6, 2);
    RowLabels(keyOf, pts, CollisionDbscan, 0);
    RowLabels(keyOf, pts, CollisionDbscan, 6);
  }
}
