/** The repeat-collapse pass of the read-depth pipeline: calls grouped by
    (type, IDR_Disrupt_left, IDR_Disrupt_right) whose cluster ids differ are
    all moved to the group's largest id, then the per-cluster statistics are
    recomputed. The cluster column is rewritten in place. */
module Collapse {
  import opened Wrappers
  import opened Freq

  /** The grouping columns of a call. */
  datatype Key = Key(kind: string, left: string, right: string)

  /** The columns collapse reads and writes. */
  datatype CRow = CRow(key: Key, cluster: int, pt: string, isProband: bool)

  function Max(a: int, b: int): int {
    if a >= b then a else b
  }

  function Min(a: int, b: int): int {
    if a <= b then a else b
  }

  /** The largest id among the rows of group k, None if the group is empty. */
  function GroupMax(keys: seq<Key>, cl: seq<int>, k: Key): (r: Option<int>)
    requires |cl| == |keys|
    ensures r.None? <==> k !in keys
    decreases |keys|
  {
    if |keys| == 0 then None
    else
      var n := |keys| - 1;
      var m := GroupMax(keys[..n], cl[..n], k);
      if keys[n] != k then m
      else if m.None? then Some(cl[n])
      else Some(Max(m.value, cl[n]))
  }

  /** The smallest id among the rows of group k. */
  function GroupMin(keys: seq<Key>, cl: seq<int>, k: Key): (r: Option<int>)
    requires |cl| == |keys|
    ensures r.None? <==> k !in keys
    decreases |keys|
  {
    if |keys| == 0 then None
    else
      var n := |keys| - 1;
      var m := GroupMin(keys[..n], cl[..n], k);
      if keys[n] != k then m
      else if m.None? then Some(cl[n])
      else Some(Min(m.value, cl[n]))
  }

  /** GroupMax is an upper bound of the group's ids. */
  lemma {:induction false} GroupMaxBound(keys: seq<Key>, cl: seq<int>, k: Key, i: nat)
    requires |cl| == |keys| && i < |keys| && keys[i] == k
    ensures GroupMax(keys, cl, k).Some? && cl[i] <= GroupMax(keys, cl, k).value
    decreases |keys|
  {
    var n := |keys| - 1;
    if i < n {
      GroupMaxBound(keys[..n], cl[..n], k, i);
    }
  }

  /** GroupMin is a lower bound of the group's ids. */
  lemma {:induction false} GroupMinBound(keys: seq<Key>, cl: seq<int>, k: Key, i: nat)
    requires |cl| == |keys| && i < |keys| && keys[i] == k
    ensures GroupMin(keys, cl, k).Some? && GroupMin(keys, cl, k).value <= cl[i]
    decreases |keys|
  {
    var n := |keys| - 1;
    if i < n {
      GroupMinBound(keys[..n], cl[..n], k, i);
    }
  }

  /** GroupMax is the id of some row of the group. */
  lemma {:induction false} GroupMaxAttained(keys: seq<Key>, cl: seq<int>, k: Key) returns (j: nat)
    requires |cl| == |keys| && GroupMax(keys, cl, k).Some?
    ensures j < |keys| && keys[j] == k && cl[j] == GroupMax(keys, cl, k).value
    decreases |keys|
  {
    var n := |keys| - 1;
    var m := GroupMax(keys[..n], cl[..n], k);
    if keys[n] == k && (m.None? || cl[n] >= m.value) {
      j := n;
    } else {
      j := GroupMaxAttained(keys[..n], cl[..n], k);
    }
  }

  /** GroupMin is the id of some row of the group. */
  lemma {:induction false} GroupMinAttained(keys: seq<Key>, cl: seq<int>, k: Key) returns (j: nat)
    requires |cl| == |keys| && GroupMin(keys, cl, k).Some?
    ensures j < |keys| && keys[j] == k && cl[j] == GroupMin(keys, cl, k).value
    decreases |keys|
  {
    var n := |keys| - 1;
    var m := GroupMin(keys[..n], cl[..n], k);
    if keys[n] == k && (m.None? || cl[n] <= m.value) {
      j := n;
    } else {
      j := GroupMinAttained(keys[..n], cl[..n], k);
    }
  }

  /** Both extremes depend only on the ids of the group's own rows. */
  lemma {:induction false} GroupRangeAgree(keys: seq<Key>, a: seq<int>, b: seq<int>, k: Key)
    requires |a| == |keys| && |b| == |keys|
    requires forall i :: 0 <= i < |keys| && keys[i] == k ==> a[i] == b[i]
    ensures GroupMax(keys, a, k) == GroupMax(keys, b, k)
    ensures GroupMin(keys, a, k) == GroupMin(keys, b, k)
    decreases |keys|
  {
    if |keys| > 0 {
      var n := |keys| - 1;
      GroupRangeAgree(keys[..n], a[..n], b[..n], k);
    }
  }

  /** The group holds more than one distinct id (len(unique) > 1). */
  predicate Mixed(keys: seq<Key>, cl: seq<int>, k: Key)
    requires |cl| == |keys|
  {
    GroupMin(keys, cl, k) != GroupMax(keys, cl, k)
  }

  /** Mixed means exactly that two rows of the group have different ids. */
  lemma MixedIff(keys: seq<Key>, cl: seq<int>, k: Key)
    requires |cl| == |keys|
    ensures Mixed(keys, cl, k) <==>
      exists i, j :: 0 <= i < |keys| && 0 <= j < |keys| && keys[i] == k && keys[j] == k && cl[i] != cl[j]
  {
    if Mixed(keys, cl, k) {
      var hi := GroupMaxAttained(keys, cl, k);
      GroupMinBound(keys, cl, k, hi);
      var lo := GroupMinAttained(keys, cl, k);
      assert cl[lo] != cl[hi];
    }
    if exists i, j :: 0 <= i < |keys| && 0 <= j < |keys| && keys[i] == k && keys[j] == k && cl[i] != cl[j] {
      var i, j :| 0 <= i < |keys| && 0 <= j < |keys| && keys[i] == k && keys[j] == k && cl[i] != cl[j];
      GroupMaxBound(keys, cl, k, i);
      GroupMaxBound(keys, cl, k, j);
      GroupMinBound(keys, cl, k, i);
      GroupMinBound(keys, cl, k, j);
    }
  }

  /** The skip test. As written it compares the left key with '' twice, so
      only the left key decides; the evident intent, calls without any IDR
      disruption, needs both keys empty. */
  predicate Exempt(k: Key, fixed: bool) {
    if fixed then k.left == "" && k.right == "" else k.left == ""
  }

  /** The id row i ends with: the group's largest id when its group is
      mixed and not exempt, its own id otherwise. */
  function CollapsedId(keys: seq<Key>, cl: seq<int>, i: nat, fixed: bool): int
    requires |cl| == |keys| && i < |keys|
  {
    var k := keys[i];
    if Mixed(keys, cl, k) && !Exempt(k, fixed) then
      GroupMaxBound(keys, cl, k, i);
      GroupMax(keys, cl, k).value
    else cl[i]
  }

  function Collapsed(keys: seq<Key>, cl: seq<int>, fixed: bool): (r: seq<int>)
    requires |cl| == |keys|
    ensures |r| == |keys|
  {
    seq(|keys|, i requires 0 <= i < |keys| => CollapsedId(keys, cl, i, fixed))
  }

  /** A row keeps its id unless its group is mixed and not exempt; then it
      takes an id some row of its group already had, and no smaller one. */
  lemma CollapsedIdIsGroupMax(keys: seq<Key>, cl: seq<int>, i: nat, fixed: bool)
    requires |cl| == |keys| && i < |keys|
    ensures var r := Collapsed(keys, cl, fixed);
      && (!Mixed(keys, cl, keys[i]) || Exempt(keys[i], fixed) ==> r[i] == cl[i])
      && cl[i] <= r[i]
      && (Mixed(keys, cl, keys[i]) && !Exempt(keys[i], fixed) ==>
            forall j :: 0 <= j < |keys| && keys[j] == keys[i] ==> cl[j] <= r[i])
      && exists j :: 0 <= j < |keys| && keys[j] == keys[i] && cl[j] == r[i]
  {
    var k := keys[i];
    GroupMaxBound(keys, cl, k, i);
    if Mixed(keys, cl, k) && !Exempt(k, fixed) {
      var j := GroupMaxAttained(keys, cl, k);
      forall j' | 0 <= j' < |keys| && keys[j'] == k ensures cl[j'] <= GroupMax(keys, cl, k).value {
        GroupMaxBound(keys, cl, k, j');
      }
    }
  }

  /** After the pass every group that was merged carries a single id. */
  lemma CollapsedUniform(keys: seq<Key>, cl: seq<int>, i: nat, j: nat, fixed: bool)
    requires |cl| == |keys| && i < |keys| && j < |keys| && keys[i] == keys[j]
    requires Mixed(keys, cl, keys[i]) && !Exempt(keys[i], fixed)
    ensures Collapsed(keys, cl, fixed)[i] == Collapsed(keys, cl, fixed)[j]
  {
  }

  /** A second pass changes nothing. */
  lemma {:induction false} CollapseIdempotent(keys: seq<Key>, cl: seq<int>, fixed: bool)
    requires |cl| == |keys|
    ensures Collapsed(keys, Collapsed(keys, cl, fixed), fixed) == Collapsed(keys, cl, fixed)
  {
    var c1 := Collapsed(keys, cl, fixed);
    forall i | 0 <= i < |keys| ensures CollapsedId(keys, c1, i, fixed) == c1[i] {
      var k := keys[i];
      if Mixed(keys, cl, k) && !Exempt(k, fixed) {
        GroupMaxBound(keys, cl, k, i);
        var m := GroupMax(keys, cl, k).value;
        GroupMaxBound(keys, c1, k, i);
        GroupMinBound(keys, c1, k, i);
        var hi := GroupMaxAttained(keys, c1, k);
        var lo := GroupMinAttained(keys, c1, k);
        assert c1[hi] == m && c1[lo] == m;
      } else {
        assert forall j :: 0 <= j < |keys| && keys[j] == k ==> c1[j] == cl[j];
        GroupRangeAgree(keys, cl, c1, k);
      }
    }
  }

  // ---------------------------------------------------------------------
  // the in-place pass

  /** The smallest and largest id of group k (the 'unique' aggregate is
      read off as their difference), scanning the column once. */
  method GroupRange(keys: seq<Key>, cluster: array<int>, k: Key) returns (lo: Option<int>, hi: Option<int>)
    requires cluster.Length == |keys|
    ensures lo == GroupMin(keys, cluster[..], k) && hi == GroupMax(keys, cluster[..], k)
  {
    lo, hi := None, None;
    var j := 0;
    while j < |keys|
      invariant 0 <= j <= |keys|
      invariant lo == GroupMin(keys[..j], cluster[..j], k) && hi == GroupMax(keys[..j], cluster[..j], k)
    {
      assert keys[..j + 1][..j] == keys[..j] && cluster[..j + 1][..j] == cluster[..j];
      if keys[j] == k {
        var c := cluster[j];
        lo := if lo.None? then Some(c) else Some(Min(lo.value, c));
        hi := if hi.None? then Some(c) else Some(Max(hi.value, c));
      }
      j := j + 1;
    }
    assert keys[..j] == keys && cluster[..j] == cluster[..];
  }

  /** df.loc[idx_, 'cluster'] = new_id for the rows of group k. */
  method Assign(keys: seq<Key>, cluster: array<int>, k: Key, v: int)
    requires cluster.Length == |keys|
    modifies cluster
    ensures forall i :: 0 <= i < |keys| ==> cluster[i] == if keys[i] == k then v else old(cluster[i])
  {
    var j := 0;
    while j < |keys|
      invariant 0 <= j <= |keys|
      invariant forall i :: 0 <= i < j ==> cluster[i] == if keys[i] == k then v else old(cluster[i])
      invariant forall i :: j <= i < |keys| ==> cluster[i] == old(cluster[i])
    {
      if keys[j] == k {
        cluster[j] := v;
      }
      j := j + 1;
    }
  }

  /** The loop of collapse over the groups, in any order that lists each
      group once: the result does not depend on the order. */
  method CollapseGroups(keys: seq<Key>, groups: seq<Key>, cluster: array<int>, fixed: bool)
    requires cluster.Length == |keys|
    requires forall a, b :: 0 <= a < b < |groups| ==> groups[a] != groups[b]
    requires forall i :: 0 <= i < |keys| ==> keys[i] in groups
    modifies cluster
    ensures cluster[..] == Collapsed(keys, old(cluster[..]), fixed)
  {
    ghost var orig := cluster[..];
    var g := 0;
    while g < |groups|
      invariant 0 <= g <= |groups|
      invariant forall i :: 0 <= i < |keys| ==>
        cluster[i] == if keys[i] in groups[..g] then CollapsedId(keys, orig, i, fixed) else orig[i]
    {
      var k := groups[g];
      assert k !in groups[..g];
      GroupRangeAgree(keys, cluster[..], orig, k);
      var lo, hi := GroupRange(keys, cluster, k);
      if lo != hi && !Exempt(k, fixed) {
        ghost var before := cluster[..];
        Assign(keys, cluster, k, hi.value);
        assert forall i :: 0 <= i < |keys| ==> cluster[i] == if keys[i] == k then hi.value else before[i];
      }
      assert groups[..g + 1] == groups[..g] + [k];
      g := g + 1;
    }
    assert groups[..g] == groups;
  }

  /** The distinct keys of the table, in first-appearance order. */
  function DistinctKeys(keys: seq<Key>): (r: seq<Key>)
    ensures forall a, b :: 0 <= a < b < |r| ==> r[a] != r[b]
    ensures forall k :: k in r <==> k in keys
    decreases |keys|
  {
    if |keys| == 0 then []
    else
      var init := DistinctKeys(keys[..|keys| - 1]);
      assert forall k :: k in keys <==> k in keys[..|keys| - 1] || k == keys[|keys| - 1];
      if keys[|keys| - 1] in init then init else init + [keys[|keys| - 1]]
  }

  function KeysOf(rows: seq<CRow>): (r: seq<Key>)
    ensures |r| == |rows| && forall i :: 0 <= i < |rows| ==> r[i] == rows[i].key
  {
    seq(|rows|, i requires 0 <= i < |rows| => rows[i].key)
  }

  function ClustersOf(rows: seq<CRow>): (r: seq<int>)
    ensures |r| == |rows| && forall i :: 0 <= i < |rows| ==> r[i] == rows[i].cluster
  {
    seq(|rows|, i requires 0 <= i < |rows| => rows[i].cluster)
  }

  /** A row of collapse's output: the call with its new id and its
      recomputed count, propensity, unique_pt_id_count and psuedo_df_freq. */
  datatype Out = Out(row: CRow, stats: Stats)

  /** The members the statistics range over, with the given ids. */
  function MembersWith(rows: seq<CRow>, cl: seq<int>): (r: seq<Member>)
    requires |cl| == |rows|
    ensures |r| == |rows| && forall i :: 0 <= i < |rows| ==> r[i] == Member(cl[i], rows[i].pt, rows[i].isProband)
  {
    seq(|rows|, i requires 0 <= i < |rows| => Member(cl[i], rows[i].pt, rows[i].isProband))
  }

  /** collapse: the merged ids, then the statistics over them. */
  function CollapseResult(rows: seq<CRow>, fixed: bool): (r: seq<Out>)
    ensures |r| == |rows|
  {
    var cl := Collapsed(KeysOf(rows), ClustersOf(rows), fixed);
    var ms := MembersWith(rows, cl);
    seq(|rows|, i requires 0 <= i < |rows| => Out(rows[i].(cluster := cl[i]), StatsAt(ms, i)))
  }

  /** collapse, as written (fixed = false) or with the skip test on both
      keys (fixed = true). */
  method CollapseCalls(rows: seq<CRow>, fixed: bool) returns (out: seq<Out>)
    ensures out == CollapseResult(rows, fixed)
  {
    var keys := KeysOf(rows);
    var cluster := new int[|rows|](i requires 0 <= i < |rows| => rows[i].cluster);
    assert cluster[..] == ClustersOf(rows);
    CollapseGroups(keys, DistinctKeys(keys), cluster, fixed);
    var cl := cluster[..];
    var ms := MembersWith(rows, cl);
    out := seq(|rows|, i requires 0 <= i < |rows| => Out(rows[i].(cluster := cl[i]), StatsAt(ms, i)));
  }

  /** The recomputed statistics obey the same bounds as after clustering,
      and only the cluster column of a call changes. */
  lemma CollapseResultBounds(rows: seq<CRow>, fixed: bool, i: nat)
    requires i < |rows|
    ensures var o := CollapseResult(rows, fixed)[i];
      && o.row.key == rows[i].key && o.row.pt == rows[i].pt && o.row.isProband == rows[i].isProband
      && 1 <= o.stats.uniquePt <= o.stats.count
      && 0.0 < o.stats.pseudoFreq <= 1.0
      && (o.row.cluster == -1 ==> o.stats.count == 1 && o.stats.uniquePt == 1)
  {
    var cl := Collapsed(KeysOf(rows), ClustersOf(rows), fixed);
    StatsBounds(MembersWith(rows, cl), i);
  }

  // ---------------------------------------------------------------------
  // the skip test

  /** A group with an empty left key but a disrupted right IDR, ids 3 and
      7: the pass as written leaves it alone. */
  lemma AsWrittenSkipsRightDisruption()
    ensures var keys := [Key("DEL", "", "X"), Key("DEL", "", "X")];
      Collapsed(keys, [3, 7], false) == [3, 7]
  {
  }

  /** With the skip test on both keys the same group is merged to 7. */
  lemma FixedMergesRightDisruption()
    ensures var keys := [Key("DEL", "", "X"), Key("DEL", "", "X")];
      Collapsed(keys, [3, 7], true) == [7, 7]
  {
    var keys := [Key("DEL", "", "X"), Key("DEL", "", "X")];
    var k := Key("DEL", "", "X");
    assert keys[..1] == [k] && [3, 7][..1] == [3];
    assert GroupMax(keys[..1], [3], k) == Some(3);
    assert GroupMin(keys[..1], [3], k) == Some(3);
    assert GroupMax(keys, [3, 7], k) == Some(7);
    assert GroupMin(keys, [3, 7], k) == Some(3);
  }

  /** The corrected test exempts exactly the calls that disrupt no IDR:
      a group is left alone for the exemption only when both keys are
      empty. */
  lemma FixedExemptsOnlyUndisrupted(k: Key)
    ensures Exempt(k, true) <==> k.left == "" && k.right == ""
    ensures Exempt(k, true) ==> Exempt(k, false)
  {
  }
}
