/** The per-cluster statistics computed after clustering: how many calls
    share a cluster, how many distinct individuals carry it, and how many of
    those are probands. Noise (cluster -1) counts as a cluster of its own
    row. Ratios are `real`; a division by a zero total is None (pandas would
    give inf or NaN). */
module Freq {
  import opened Wrappers
  import opened Text

  /** The columns the statistics read from a clustered call. */
  datatype Member = Member(cluster: int, pt: string, isProband: bool)

  /** Which rows a count or a distinct-individual set ranges over. */
  datatype Filter =
    | Everyone
    | InCluster(c: int)
    | ProbandsIn(c: int)
    | WithProband(b: bool)

  predicate Keeps(f: Filter, m: Member) {
    match f
    case Everyone => true
    case InCluster(c) => m.cluster == c
    case ProbandsIn(c) => m.cluster == c && m.isProband
    case WithProband(b) => m.isProband == b
  }

  /** The number of rows the filter keeps. */
  function Count(rows: seq<Member>, f: Filter): (r: nat)
    ensures r <= |rows|
    decreases |rows|
  {
    if |rows| == 0 then 0
    else Count(rows[..|rows| - 1], f) + (if Keeps(f, Last(rows)) then 1 else 0)
  }

  /** The distinct pt_id values of the rows the filter keeps (nunique). */
  function Pts(rows: seq<Member>, f: Filter): set<string>
    decreases |rows|
  {
    if |rows| == 0 then {}
    else Pts(rows[..|rows| - 1], f) + (if Keeps(f, Last(rows)) then {Last(rows).pt} else {})
  }

  lemma {:induction false} SubsetCard<T>(a: set<T>, b: set<T>)
    requires a <= b
    ensures |a| <= |b|
    decreases |a|
  {
    if a != {} {
      var x :| x in a;
      SubsetCard(a - {x}, b - {x});
    }
  }

  /** Exactly the kept rows contribute their pt_id. */
  lemma {:induction false} PtsMember(rows: seq<Member>, f: Filter, i: nat)
    requires i < |rows| && Keeps(f, rows[i])
    ensures rows[i].pt in Pts(rows, f)
    decreases |rows|
  {
    if i < |rows| - 1 {
      PtsMember(rows[..|rows| - 1], f, i);
    }
  }

  /** There are no more distinct individuals than rows. */
  lemma {:induction false} PtsWithinCount(rows: seq<Member>, f: Filter)
    ensures |Pts(rows, f)| <= Count(rows, f)
    decreases |rows|
  {
    if |rows| > 0 {
      PtsWithinCount(rows[..|rows| - 1], f);
    }
  }

  /** A filter that keeps fewer rows sees fewer individuals. */
  lemma {:induction false} PtsMonotone(rows: seq<Member>, f: Filter, g: Filter)
    requires forall m :: Keeps(f, m) ==> Keeps(g, m)
    ensures Pts(rows, f) <= Pts(rows, g)
    decreases |rows|
  {
    if |rows| > 0 {
      PtsMonotone(rows[..|rows| - 1], f, g);
    }
  }

  /** total_pt and nsub: the individuals of the whole table. */
  function TotalPt(rows: seq<Member>): nat {
    |Pts(rows, Everyone)|
  }

  lemma TotalPtPositive(rows: seq<Member>, i: nat)
    requires i < |rows|
    ensures TotalPt(rows) > 0
  {
    PtsMember(rows, Everyone, i);
  }

  /** 'count': the rows of the cluster, 1 for noise. */
  function ClusterCount(rows: seq<Member>, i: nat): nat
    requires i < |rows|
  {
    if rows[i].cluster == -1 then 1 else Count(rows, InCluster(rows[i].cluster))
  }

  /** 'unique_pt_id_count': the cluster's distinct individuals, 1 for noise. */
  function UniquePtCount(rows: seq<Member>, i: nat): nat
    requires i < |rows|
  {
    if rows[i].cluster == -1 then 1 else |Pts(rows, InCluster(rows[i].cluster))|
  }

  /** 'cluster_propensity' = count / total_pt. */
  function ClusterPropensity(rows: seq<Member>, i: nat): real
    requires i < |rows|
  {
    TotalPtPositive(rows, i);
    ClusterCount(rows, i) as real / TotalPt(rows) as real
  }

  /** 'psuedo_df_freq' = unique_pt_id_count / nsub. */
  function PseudoFreq(rows: seq<Member>, i: nat): real
    requires i < |rows|
  {
    TotalPtPositive(rows, i);
    UniquePtCount(rows, i) as real / TotalPt(rows) as real
  }

  /** A cluster has at least one individual and no more than it has rows. */
  lemma UniqueWithinCount(rows: seq<Member>, i: nat)
    requires i < |rows|
    ensures 1 <= UniquePtCount(rows, i) <= ClusterCount(rows, i)
  {
    if rows[i].cluster != -1 {
      PtsMember(rows, InCluster(rows[i].cluster), i);
      PtsWithinCount(rows, InCluster(rows[i].cluster));
    }
  }

  /** The pseudo frequency is a proper fraction of the cohort. */
  lemma PseudoFreqRange(rows: seq<Member>, i: nat)
    requires i < |rows|
    ensures 0.0 < PseudoFreq(rows, i) <= 1.0
  {
    UniqueWithinCount(rows, i);
    TotalPtPositive(rows, i);
    if rows[i].cluster != -1 {
      PtsMonotone(rows, InCluster(rows[i].cluster), Everyone);
      SubsetCard(Pts(rows, InCluster(rows[i].cluster)), Pts(rows, Everyone));
    }
    assert 1 <= UniquePtCount(rows, i) <= TotalPt(rows);
    UnitFraction(UniquePtCount(rows, i), TotalPt(rows));
  }

  /** a / b lies in (0, 1] for 1 <= a <= b. */
  lemma UnitFraction(a: nat, b: nat)
    requires 1 <= a <= b
    ensures 0.0 < a as real / b as real <= 1.0
  {
    assert a as real / b as real <= b as real / b as real;
  }

  /** The four per-cluster columns every clustering step writes: count,
      cluster_propensity, unique_pt_id_count and psuedo_df_freq. */
  datatype Stats = Stats(count: nat, propensity: real, uniquePt: nat, pseudoFreq: real)

  function StatsAt(rows: seq<Member>, i: nat): Stats
    requires i < |rows|
  {
    Stats(ClusterCount(rows, i), ClusterPropensity(rows, i), UniquePtCount(rows, i), PseudoFreq(rows, i))
  }

  /** A cluster has between one and `count` individuals, the pseudo
      frequency lies in (0, 1], and noise counts as a cluster of one. */
  lemma StatsBounds(rows: seq<Member>, i: nat)
    requires i < |rows|
    ensures var st := StatsAt(rows, i);
      && 1 <= st.uniquePt <= st.count
      && 0.0 < st.pseudoFreq <= 1.0
      && 0.0 < st.propensity
      && (rows[i].cluster == -1 ==> st.count == 1 && st.uniquePt == 1)
  {
    UniqueWithinCount(rows, i);
    PseudoFreqRange(rows, i);
    TotalPtPositive(rows, i);
  }

  /** The columns depend on the row only through its cluster: rows of the
      same cluster carry the same statistics. */
  lemma StatsPerCluster(rows: seq<Member>, i: nat, j: nat)
    requires i < |rows| && j < |rows| && rows[i].cluster == rows[j].cluster != -1
    ensures StatsAt(rows, i) == StatsAt(rows, j)
  {
    var c := rows[i].cluster;
    assert ClusterCount(rows, i) == Count(rows, InCluster(c)) == ClusterCount(rows, j);
    assert UniquePtCount(rows, i) == |Pts(rows, InCluster(c))| == UniquePtCount(rows, j);
  }

  /** cluster_propensity is not a frequency: one individual with two calls
      in one cluster gives 2. */
  lemma PropensityCanExceedOne()
    ensures ClusterPropensity([Member(0, "p", true), Member(0, "p", true)], 0) == 2.0
  {
    var rows := [Member(0, "p", true), Member(0, "p", true)];
    assert rows[..1][..0] == [];
    assert Count(rows, InCluster(0)) == 2;
    assert Pts(rows, Everyone) == {"p"};
  }

  // ---------------------------------------------------------------------
  // Proband counts

  /** 'proband_only_count': for a numbered cluster its distinct proband
      individuals (0 when it has none), for noise is_proband as 0/1. */
  function ProbandOnlyCount(rows: seq<Member>, i: nat): nat
    requires i < |rows|
  {
    if rows[i].cluster == -1 then (if rows[i].isProband then 1 else 0)
    else |Pts(rows, ProbandsIn(rows[i].cluster))|
  }

  /** Rows of the same numbered cluster carry the same proband count. */
  lemma ProbandCountPerCluster(rows: seq<Member>, i: nat, j: nat)
    requires i < |rows| && j < |rows| && rows[i].cluster == rows[j].cluster != -1
    ensures ProbandOnlyCount(rows, i) == ProbandOnlyCount(rows, j)
  {
    var c := rows[i].cluster;
    assert ProbandOnlyCount(rows, i) == |Pts(rows, ProbandsIn(c))|;
  }

  /** total_proband_pt and total_nonproband_pt. */
  function TotalWith(rows: seq<Member>, proband: bool): nat {
    |Pts(rows, WithProband(proband))|
  }

  /** A cluster's probands are among its individuals, so
      nonproband_only_count = unique_pt_id_count - proband_only_count is
      never negative. */
  lemma ProbandWithinUnique(rows: seq<Member>, i: nat)
    requires i < |rows|
    ensures ProbandOnlyCount(rows, i) <= UniquePtCount(rows, i)
    ensures UniquePtCount(rows, i) - ProbandOnlyCount(rows, i) >= 0
  {
    if rows[i].cluster != -1 {
      var c := rows[i].cluster;
      PtsMonotone(rows, ProbandsIn(c), InCluster(c));
      SubsetCard(Pts(rows, ProbandsIn(c)), Pts(rows, InCluster(c)));
    }
  }

  /** A proband count never exceeds the cohort's probands, so
      proband_only_propensity, when defined, is at most 1. */
  lemma ProbandWithinTotal(rows: seq<Member>, i: nat)
    requires i < |rows|
    ensures ProbandOnlyCount(rows, i) <= TotalWith(rows, true)
  {
    if rows[i].cluster != -1 {
      var c := rows[i].cluster;
      PtsMonotone(rows, ProbandsIn(c), WithProband(true));
      SubsetCard(Pts(rows, ProbandsIn(c)), Pts(rows, WithProband(true)));
    } else if rows[i].isProband {
      PtsMember(rows, WithProband(true), i);
    }
  }

  /** count / total, undefined for a zero total. */
  function Ratio(n: int, total: nat): Option<real> {
    if total == 0 then None else Some(n as real / total as real)
  }

  lemma RatioAtMostOne(n: int, total: nat)
    requires 0 <= n <= total
    ensures Ratio(n, total).Some? ==> 0.0 <= Ratio(n, total).value <= 1.0
  {
    if total > 0 {
      assert n as real <= total as real;
      assert n as real / total as real <= total as real / total as real;
    }
  }

  // ---------------------------------------------------------------------
  // add_freq

  /** The columns add_freq reads: the call's coordinates and ids, its
      cluster, and the unique_pt_id_count already in the table. */
  datatype Scored = Scored(chrom1: string, pos1: int, chrom2: string, pos2: int, svId: string,
                           member: Member, uniquePt: int)

  /** The columns add_freq adds. */
  datatype Added = Added(probandOnly: nat, probandProp: Option<real>,
                         nonProbandOnly: int, nonProbandProp: Option<real>, uuid: string)

  function Members(rows: seq<Scored>): (r: seq<Member>)
    ensures |r| == |rows| && forall i :: 0 <= i < |rows| ==> r[i] == rows[i].member
  {
    seq(|rows|, i requires 0 <= i < |rows| => rows[i].member)
  }

  /** UUID = chrom1_pos1_chrom2_pos2_SV_id_pt_id. */
  function Uuid(r: Scored): string {
    Join([r.chrom1, IntToString(r.pos1), r.chrom2, IntToString(r.pos2), r.svId, r.member.pt], "_")
  }

  /** The new columns of row i. */
  function AddedRow(rows: seq<Scored>, i: nat): Added
    requires i < |rows|
  {
    var ms := Members(rows);
    var p := ProbandOnlyCount(ms, i);
    var np := rows[i].uniquePt - p;
    Added(p, Ratio(p, TotalWith(ms, true)), np, Ratio(np, TotalWith(ms, false)), Uuid(rows[i]))
  }

  /** add_freq: the per-cluster proband dict built in one pass, then the
      row-wise columns. */
  method AddFreq(rows: seq<Scored>) returns (added: seq<Added>)
    ensures |added| == |rows|
    ensures forall i :: 0 <= i < |rows| ==> added[i] == AddedRow(rows, i)
  {
    var ms := Members(rows);
    var probandPts := ProbandDict(ms);
    var totalP := TotalWith(ms, true);
    var totalN := TotalWith(ms, false);
    added := [];
    var i := 0;
    while i < |rows|
      invariant 0 <= i <= |rows| && |added| == i
      invariant forall j :: 0 <= j < i ==> added[j] == AddedRow(rows, j)
    {
      var m := rows[i].member;
      var p := if m.cluster == -1 then (if m.isProband then 1 else 0)
               else if m.cluster in probandPts then |probandPts[m.cluster]| else 0;
      assert p == ProbandOnlyCount(ms, i);
      var np := rows[i].uniquePt - p;
      added := added + [Added(p, Ratio(p, totalP), np, Ratio(np, totalN), Uuid(rows[i]))];
      i := i + 1;
    }
  }

  /** proband_counts: cluster -> its proband individuals, over the
      numbered clusters that have a proband. */
  method ProbandDict(ms: seq<Member>) returns (d: map<int, set<string>>)
    ensures forall c :: c in d ==> c != -1 && d[c] == Pts(ms, ProbandsIn(c))
    ensures forall c :: c != -1 && c !in d ==> Pts(ms, ProbandsIn(c)) == {}
  {
    d := map[];
    var i := 0;
    while i < |ms|
      invariant 0 <= i <= |ms|
      invariant forall c :: c in d ==> c != -1 && d[c] == Pts(ms[..i], ProbandsIn(c))
      invariant forall c :: c != -1 && c !in d ==> Pts(ms[..i], ProbandsIn(c)) == {}
    {
      assert ms[..i + 1][..i] == ms[..i];
      var m := ms[i];
      if m.isProband && m.cluster != -1 {
        var before := if m.cluster in d then d[m.cluster] else {};
        d := d[m.cluster := before + {m.pt}];
      }
      i := i + 1;
    }
    assert ms[..i] == ms;
  }

  /** With the table's own unique_pt_id_count column, no nonproband count
      is negative and no defined proband propensity exceeds 1. */
  lemma AddFreqBounds(rows: seq<Scored>, i: nat)
    requires i < |rows| && rows[i].uniquePt == UniquePtCount(Members(rows), i)
    ensures AddedRow(rows, i).nonProbandOnly >= 0
    ensures AddedRow(rows, i).probandProp.Some? ==> 0.0 <= AddedRow(rows, i).probandProp.value <= 1.0
  {
    var ms := Members(rows);
    ProbandWithinUnique(ms, i);
    ProbandWithinTotal(ms, i);
    RatioAtMostOne(ProbandOnlyCount(ms, i), TotalWith(ms, true));
  }

  lemma NoUnderscoreInNumber(n: int)
    ensures '_' !in IntToString(n)
  {
    var s := NatToString(if n < 0 then -n else n);
    assert forall k :: 0 <= k < |s| ==> IsDigit(s[k]);
  }

  /** When no text field contains '_', the UUID splits back into its six
      fields. */
  lemma UuidSplits(r: Scored)
    requires '_' !in r.chrom1 && '_' !in r.chrom2 && '_' !in r.svId && '_' !in r.member.pt
    ensures Split(Uuid(r), '_') ==
      [r.chrom1, IntToString(r.pos1), r.chrom2, IntToString(r.pos2), r.svId, r.member.pt]
  {
    NoUnderscoreInNumber(r.pos1);
    NoUnderscoreInNumber(r.pos2);
    SplitJoin([r.chrom1, IntToString(r.pos1), r.chrom2, IntToString(r.pos2), r.svId, r.member.pt], '_');
  }

  /** A '_' inside a field makes two different calls share a UUID. */
  lemma UuidAmbiguous()
    ensures Uuid(Scored("1", 5, "1", 9, "a_b", Member(0, "c", true), 1))
         == Uuid(Scored("1", 5, "1", 9, "a", Member(0, "b_c", true), 1))
  {
    assert IntToString(5) == "5" && IntToString(9) == "9";
    var head := ["1", "5", "1", "9"];
    var t1, t2 := ["a_b", "c"], ["a", "b_c"];
    assert t1[1..] == ["c"] && t2[1..] == ["b_c"];
    assert Join(t1, "_") == "a_b_c" == Join(t2, "_");
    JoinSameTail(head, t1, t2, "_");
    assert head + t1 == ["1", "5", "1", "9", "a_b", "c"];
    assert head + t2 == ["1", "5", "1", "9", "a", "b_c"];
  }
}
