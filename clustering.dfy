/** The structural-variant clustering step shared by the short-read
    (snf2_cluster.cluster) and long-read (P2_cluster.get_P2_df) pipelines:
    place every call on the linear genome, cluster per SV type, and attach
    each cluster's size and frequency columns. */
module SvCluster {
  import opened Wrappers
  import opened Calls
  import opened Genome
  import opened Relabel
  import opened Freq
  import Snf2Calls
  import P2Calls
  import Segments
  import ChromNames

  /** A call with the linear coordinates cum_pos1 and cum_pos2. */
  datatype Placed = Placed(call: Call, cum1: int, cum2: int)

  /** The columns the clustering adds to a call; the proband columns only
      where the pipeline computes them. */
  datatype Row = Row(call: Call, cluster: int, stats: Stats, proband: Option<ProbandCols>)

  datatype ProbandCols = ProbandCols(probandOnly: nat, probandProp: Option<real>,
                                     nonProbandOnly: int, nonProbandProp: Option<real>)

  // ---------------------------------------------------------------------
  // Linearisation: the two inner merges with the size table

  /** The column the second merge joins on: chrom2 in the structural-variant
      pipelines, chrom1 again in the read-depth ones. */
  datatype SecondKey = OnChrom2 | OnChrom1

  function Mate(c: Call, key: SecondKey): string {
    if key == OnChrom2 then c.chrom2 else c.chrom1
  }

  /** Both merges for one call: the row survives exactly when both join
      keys are in the table, and gains each one's cum_size. */
  function Place(t: Table, c: Call, key: SecondKey): (r: Option<Placed>)
    ensures r.Some? <==> c.chrom1 in Names(t) && Mate(c, key) in Names(t)
    ensures r.Some? ==> r.value.call == c
  {
    match (Offset(t, c.chrom1), Offset(t, Mate(c, key)))
    case (Some(o1), Some(o2)) => Some(Placed(c, c.pos1 + o1, c.pos2 + o2))
    case _ => None
  }

  /** A position lies within the named chromosome of the table. */
  predicate Within(t: Table, name: string, p: int) {
    IndexOf(t, name).Some? && OnContig(t, IndexOf(t, name).value, p)
  }

  /** cum_pos1 identifies chrom1 and pos1 for calls that lie within their
      chromosomes. */
  lemma PlacedInjective(t: Table, key: SecondKey, a: Call, b: Call)
    requires Place(t, a, key).Some? && Place(t, b, key).Some?
    requires Within(t, a.chrom1, a.pos1) && Within(t, b.chrom1, b.pos1)
    requires Place(t, a, key).value.cum1 == Place(t, b, key).value.cum1
    ensures a.chrom1 == b.chrom1 && a.pos1 == b.pos1
  {
    var i := IndexOf(t, a.chrom1).value;
    var j := IndexOf(t, b.chrom1).value;
    LinearInjective(t, i, a.pos1, j, b.pos1);
  }

  /** The merged table: the placed calls in row order, rows with a
      chromosome missing from the table dropped. */
  function Linearise(t: Table, calls: seq<Call>, key: SecondKey): (r: seq<Placed>)
    ensures |r| <= |calls|
    ensures forall p :: p in r ==> p.call in calls && Place(t, p.call, key) == Some(p)
    decreases |calls|
  {
    if |calls| == 0 then []
    else
      var init := Linearise(t, calls[..|calls| - 1], key);
      match Place(t, calls[|calls| - 1], key)
      case None => init
      case Some(p) => init + [p]
  }

  /** No call whose chromosomes are both in the table is dropped. */
  lemma {:induction false} LineariseComplete(t: Table, calls: seq<Call>, key: SecondKey, i: nat)
    requires i < |calls| && Place(t, calls[i], key).Some?
    ensures Place(t, calls[i], key).value in Linearise(t, calls, key)
    decreases |calls|
  {
    var init := calls[..|calls| - 1];
    var rest := Linearise(t, init, key);
    var x := Place(t, calls[i], key).value;
    if i < |calls| - 1 {
      assert init[i] == calls[i];
      LineariseComplete(t, init, key, i);
      assert x in rest;
    }
    match Place(t, calls[|calls| - 1], key)
    case None =>
      assert Linearise(t, calls, key) == rest;
    case Some(p) =>
      assert Linearise(t, calls, key) == rest + [p];
  }

  // ---------------------------------------------------------------------
  // Cluster ids and the columns derived from them

  function TypesOf(ps: seq<Placed>): (r: seq<string>)
    ensures |r| == |ps| && forall i :: 0 <= i < |ps| ==> r[i] == ps[i].call.svType
  {
    seq(|ps|, i requires 0 <= i < |ps| => ps[i].call.svType)
  }

  function PointsOf(ps: seq<Placed>): (r: seq<Point>)
    ensures |r| == |ps| && forall i :: 0 <= i < |ps| ==> r[i] == Point(ps[i].cum1, ps[i].cum2)
  {
    seq(|ps|, i requires 0 <= i < |ps| => Point(ps[i].cum1, ps[i].cum2))
  }

  /** Row i's cluster id: with the counter set to each group's largest id
      as written (fixed = false, Relabel.ClusterOf), or only ever raised
      (fixed = true, Relabel.ClusterOfFixed). */
  function IdAt(ps: seq<Placed>, dbscan: Labeller, fixed: bool, i: nat): int
    requires IsLabeller(dbscan) && i < |ps|
  {
    if fixed then ClusterOfFixed(TypesOf(ps), PointsOf(ps), dbscan, i)
    else ClusterOf(TypesOf(ps), PointsOf(ps), dbscan, i)
  }

  /** The cluster id of every row. */
  function Ids(ps: seq<Placed>, dbscan: Labeller, fixed: bool): (r: seq<int>)
    requires IsLabeller(dbscan)
    ensures |r| == |ps|
    ensures forall i :: 0 <= i < |ps| ==> r[i] == IdAt(ps, dbscan, fixed, i)
  {
    seq(|ps|, i requires 0 <= i < |ps| => IdAt(ps, dbscan, fixed, i))
  }

  function MembersOf(ps: seq<Placed>, ids: seq<int>): (r: seq<Member>)
    requires |ids| == |ps|
    ensures |r| == |ps|
    ensures forall i :: 0 <= i < |ps| ==> r[i] == Member(ids[i], ps[i].call.pt, ps[i].call.isProband)
  {
    seq(|ps|, i requires 0 <= i < |ps| => Member(ids[i], ps[i].call.pt, ps[i].call.isProband))
  }

  /** proband_only_count, its propensity, nonproband_only_count and its
      propensity for row i. */
  function ProbandAt(ms: seq<Member>, i: nat): ProbandCols
    requires i < |ms|
  {
    ProbandColsOf(ProbandOnlyCount(ms, i), UniquePtCount(ms, i), TotalWith(ms, true), TotalWith(ms, false))
  }

  /** The four columns from a cluster's proband and individual counts and
      the cohort's proband and non-proband totals. */
  function ProbandColsOf(p: nat, unique: nat, totalP: nat, totalNp: nat): ProbandCols {
    ProbandCols(p, Ratio(p, totalP), unique - p, Ratio(unique - p, totalNp))
  }

  /** Row i of the clustered table. */
  function RowAt(ps: seq<Placed>, ids: seq<int>, withProband: bool, i: nat): Row
    requires |ids| == |ps| && i < |ps|
  {
    var ms := MembersOf(ps, ids);
    Row(ps[i].call, ids[i], StatsAt(ms, i), if withProband then Some(ProbandAt(ms, i)) else None)
  }

  /** The clustered table: KeyError on an empty table, where no group runs
      and the 'cluster' column is never created. */
  function Clustered(ps: seq<Placed>, dbscan: Labeller, withProband: bool, fixed: bool): (r: Result<seq<Row>>)
    requires IsLabeller(dbscan)
    ensures r.Err? <==> |ps| == 0
    ensures r.Ok? ==> |r.value| == |ps| && forall i :: 0 <= i < |ps| ==> r.value[i].call == ps[i].call
  {
    if |ps| == 0 then Err(KeyError)
    else
      var ids := Ids(ps, dbscan, fixed);
      Ok(seq(|ps|, i requires 0 <= i < |ps| => RowAt(ps, ids, withProband, i)))
  }

  /** The clustering steps of cluster() and get_P2_df on the merged table,
      with the counter as written (fixed = false) or only ever raised
      (fixed = true). */
  method ClusterRows(ps: seq<Placed>, dbscan: Labeller, withProband: bool, fixed: bool)
      returns (r: Result<seq<Row>>)
    requires IsLabeller(dbscan)
    ensures r == Clustered(ps, dbscan, withProband, fixed)
  {
    if |ps| == 0 {
      return Err(KeyError);
    }
    var ids;
    if fixed {
      ids := AssignClustersFixed(TypesOf(ps), PointsOf(ps), dbscan);
    } else {
      ids := AssignClusters(TypesOf(ps), PointsOf(ps), dbscan);
    }
    assert ids == Ids(ps, dbscan, fixed);
    r := Ok(seq(|ps|, i requires 0 <= i < |ps| => RowAt(ps, ids, withProband, i)));
  }

  // ---------------------------------------------------------------------
  // What the columns mean

  /** Bounds on every row's columns: those of Freq.StatsBounds, and a
      cluster's probands are among its individuals and the cohort's. */
  lemma RowBounds(ps: seq<Placed>, ids: seq<int>, withProband: bool, i: nat)
    requires |ids| == |ps| && i < |ps|
    ensures var row := RowAt(ps, ids, withProband, i);
      && 1 <= row.stats.uniquePt <= row.stats.count
      && 0.0 < row.stats.pseudoFreq <= 1.0
      && (row.cluster == -1 ==> row.stats.count == 1 && row.stats.uniquePt == 1)
      && (row.proband.Some? ==>
            && row.proband.value.probandOnly <= row.stats.uniquePt
            && row.proband.value.nonProbandOnly >= 0
            && (row.proband.value.probandProp.Some? ==> 0.0 <= row.proband.value.probandProp.value <= 1.0))
  {
    var ms := MembersOf(ps, ids);
    StatsBounds(ms, i);
    ProbandWithinUnique(ms, i);
    ProbandWithinTotal(ms, i);
    RatioAtMostOne(ProbandOnlyCount(ms, i), TotalWith(ms, true));
  }

  /** Two rows of the same numbered cluster carry the same columns. */
  lemma SameClusterSameStats(ps: seq<Placed>, ids: seq<int>, withProband: bool, i: nat, j: nat)
    requires |ids| == |ps| && i < |ps| && j < |ps| && ids[i] == ids[j] && ids[i] != -1
    ensures var a := RowAt(ps, ids, withProband, i); var b := RowAt(ps, ids, withProband, j);
      a.stats == b.stats && a.proband == b.proband
  {
    var ms := MembersOf(ps, ids);
    assert ms[i].cluster == ids[i] == ids[j] == ms[j].cluster;
    StatsPerCluster(ms, i, j);
    ProbandAtPerCluster(ms, i, j);
  }

  lemma ProbandAtPerCluster(ms: seq<Member>, i: nat, j: nat)
    requires i < |ms| && j < |ms| && ms[i].cluster == ms[j].cluster != -1
    ensures ProbandAt(ms, i) == ProbandAt(ms, j)
  {
    ProbandCountPerCluster(ms, i, j);
    assert UniquePtCount(ms, i) == |Pts(ms, InCluster(ms[i].cluster))| == UniquePtCount(ms, j);
  }

  /** A numbered cluster never mixes SV types: always with the raised-only
      counter, and with the counter as written when no type group is all
      noise (Relabel.AllNoiseGroupCollision shows the other case). */
  lemma ClusterSingleType(ps: seq<Placed>, dbscan: Labeller, fixed: bool, i: nat, j: nat)
    requires IsLabeller(dbscan) && i < |ps| && j < |ps|
    requires fixed || EveryGroupClusters(TypesOf(ps), PointsOf(ps), dbscan)
    requires Ids(ps, dbscan, fixed)[i] == Ids(ps, dbscan, fixed)[j] != -1
    ensures ps[i].call.svType == ps[j].call.svType
  {
    var keyOf, pts := TypesOf(ps), PointsOf(ps);
    if ps[i].call.svType != ps[j].call.svType {
      var gi, gj := GroupOf(keyOf, i), GroupOf(keyOf, j);
      assert gi != gj;
      var a, b := if gi < gj then i else j, if gi < gj then j else i;
      if fixed {
        FixedLaterGroupsHigherIds(keyOf, pts, dbscan, a, b);
      } else {
        NoiseStaysNoise(keyOf, pts, dbscan, a);
        NoiseStaysNoise(keyOf, pts, dbscan, b);
        LaterGroupsHigherIds(keyOf, pts, dbscan, a, b);
      }
    }
  }

  // ---------------------------------------------------------------------
  // The two pipelines

  /** Every row of a clustered table is a call of the input whose
      chromosomes are both in the size table. */
  lemma RowsPlaced(t: Table, calls: seq<Call>, key: SecondKey, dbscan: Labeller, withProband: bool, fixed: bool, k: nat)
    requires IsLabeller(dbscan)
    requires Clustered(Linearise(t, calls, key), dbscan, withProband, fixed).Ok?
    requires k < |Clustered(Linearise(t, calls, key), dbscan, withProband, fixed).value|
    ensures var c := Clustered(Linearise(t, calls, key), dbscan, withProband, fixed).value[k].call;
      c in calls && c.chrom1 in Names(t) && Mate(c, key) in Names(t)
  {
    var ps := Linearise(t, calls, key);
    assert ps[k] in ps;
  }

  /** The long-read run: read every subject's file, then merge and cluster
      without proband columns. */
  function P2Result(meta: seq<P2Calls.Subject>, refVer: string, files: map<string, seq<string>>,
                    dbscan: Labeller, fixed: bool): (r: Result<seq<Row>>)
    requires IsLabeller(dbscan)
  {
    var calls :- P2Calls.ReadAll(meta, refVer, files);
    Clustered(Linearise(SizeTable(refVer).value, calls, OnChrom2), dbscan, false, fixed)
  }

  /** get_P2_df, as written (fixed = false) or with the raised-only
      counter (fixed = true). */
  method GetP2Df(meta: seq<P2Calls.Subject>, refVer: string, files: map<string, seq<string>>,
                 dbscan: Labeller, fixed: bool) returns (r: Result<seq<Row>>)
    requires IsLabeller(dbscan)
    ensures r == P2Result(meta, refVer, files, dbscan, fixed)
  {
    var calls := P2Calls.GetP2Rows(meta, refVer, files);
    if calls.Err? {
      return Err(calls.error);
    }
    var t := SizeTable(refVer).value;
    r := ClusterRows(Linearise(t, calls.value, OnChrom2), dbscan, false, fixed);
  }

  /** Every row of a long-read run lies on chromosomes of the build's table
      and outside the artifact window. */
  lemma P2RowsPlaced(meta: seq<P2Calls.Subject>, refVer: string, files: map<string, seq<string>>,
                     dbscan: Labeller, fixed: bool, k: nat)
    requires IsLabeller(dbscan)
    requires P2Result(meta, refVer, files, dbscan, fixed).Ok? && k < |P2Result(meta, refVer, files, dbscan, fixed).value|
    ensures refVer == "hg19" || refVer == "hg38"
    ensures var c := P2Result(meta, refVer, files, dbscan, fixed).value[k].call;
      && c.chrom1 in Names(SizeTable(refVer).value) && c.chrom2 in Names(SizeTable(refVer).value)
      && !P2Calls.InArtifact(refVer, c)
  {
    var calls := P2Calls.ReadAll(meta, refVer, files).value;
    RowsPlaced(SizeTable(refVer).value, calls, OnChrom2, dbscan, false, fixed, k);
  }

  /** apply_DBSCAN of the read-depth pipeline: both merges join on chrom1,
      so cum_pos2 = pos2 + cum_size of chrom1; groups are the rows' SV_type
      (the copy-number level) and no proband columns are computed. A build
      other than hg19/hg38 leaves the size table unassigned (NameError).
      The counter is as written for fixed = false. */
  method CnvApplyDbscan(calls: seq<Call>, refVer: string, dbscan: Labeller, fixed: bool)
      returns (r: Result<seq<Row>>)
    requires IsLabeller(dbscan)
    ensures refVer != "hg19" && refVer != "hg38" ==> r == Err(NameError)
    ensures refVer == "hg19" || refVer == "hg38" ==>
      r == Clustered(Linearise(SizeTable(refVer).value, calls, OnChrom1), dbscan, false, fixed)
  {
    var t := SizeTable(refVer);
    if t.None? {
      return Err(NameError);
    }
    r := ClusterRows(Linearise(t.value, calls, OnChrom1), dbscan, false, fixed);
  }

  /** apply_DBSCAN of the earlier read-depth revision: hg19 sizes only,
      both merges on chrom1, start/end as the coordinates and gain/loss as
      the groups (the caller puts `type` in svType). The counter is as
      written for fixed = false. */
  method CnvCallApplyDbscan(calls: seq<Call>, dbscan: Labeller, fixed: bool) returns (r: Result<seq<Row>>)
    requires IsLabeller(dbscan)
    ensures r == Clustered(Linearise(SizeTable("hg19").value, calls, OnChrom1), dbscan, false, fixed)
  {
    r := ClusterRows(Linearise(SizeTable("hg19").value, calls, OnChrom1), dbscan, false, fixed);
  }

  /** For a call whose two ends are on one chromosome, both joins agree. */
  lemma PlaceSameChrom(t: Table, c: Call)
    requires c.chrom2 == c.chrom1
    ensures Place(t, c, OnChrom1) == Place(t, c, OnChrom2)
  {
  }

  /** Joining the second merge on chrom1 is the same as joining on chrom2
      for calls whose two ends are on one chromosome, as read-depth calls
      are. */
  lemma {:induction false} SecondKeyIrrelevant(t: Table, calls: seq<Call>)
    requires forall i :: 0 <= i < |calls| ==> calls[i].chrom2 == calls[i].chrom1
    ensures Linearise(t, calls, OnChrom1) == Linearise(t, calls, OnChrom2)
    decreases |calls|
  {
    if |calls| > 0 {
      var n := |calls| - 1;
      SecondKeyIrrelevant(t, calls[..n]);
      PlaceSameChrom(t, calls[n]);
    }
  }

  /** The columns a read-depth call carries into apply_DBSCAN: chrom1 is
      remove_chr(chr) and chrom2 the same, pos1/pos2 are start/end, SV_type
      is the copy-number level and SV_len the segment length; read-depth
      calls have no genotype. */
  function CnvAsCall(r: Segments.CnvRow, pt: string, family: string, project: string,
                     isProband: bool, system: string): Call
  {
    var chrom := ChromNames.RemoveChr(r.seg.chr);
    Call(chrom, r.seg.start, chrom, r.seg.end, r.svId.GetOr(""), r.cnvLvl, r.seg.len, "",
         pt, family, project, isProband, system)
  }

  /** For read-depth calls the second merge on chrom1 places every call
      exactly where a merge on chrom2 would. */
  lemma CnvSecondJoinHarmless(t: Table, rows: seq<Segments.CnvRow>, pt: string, family: string,
                              project: string, isProband: bool, system: string)
    ensures var calls := seq(|rows|, i requires 0 <= i < |rows| => CnvAsCall(rows[i], pt, family, project, isProband, system));
      Linearise(t, calls, OnChrom1) == Linearise(t, calls, OnChrom2)
  {
    var calls := seq(|rows|, i requires 0 <= i < |rows| => CnvAsCall(rows[i], pt, family, project, isProband, system));
    SecondKeyIrrelevant(t, calls);
  }
}
