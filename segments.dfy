/** The read-depth caller's post-processing: the segmenter's per-bin
    levels are run-length encoded into 1000 bp segments, segments past the
    gain or loss thresholds become calls, each call gets a copy-number level
    from fixed log2 bands and, in the later revision, a per-type SV id.
    The segmenter itself (SLMSeg) is an oracle `levelsOf` from chromosome
    name to the sequence of per-bin levels. */
module Segments {
  import opened Wrappers
  import opened Text
  import Relabel

  /** One run of rle.encode: a level and how many bins repeat it. */
  datatype Run = Run(level: real, n: nat)

  /** rle.encode: maximal runs of equal adjacent values, in order. */
  function Rle(xs: seq<real>): (r: seq<Run>)
    ensures |r| == 0 <==> |xs| == 0
    ensures |r| <= |xs|
    ensures forall i :: 0 <= i < |r| ==> r[i].n >= 1
    ensures forall i, j :: 0 <= i < j < |r| && j == i + 1 ==> r[i].level != r[j].level
    ensures |r| > 0 ==> Last(r).level == Last(xs)
    decreases |xs|
  {
    if |xs| == 0 then []
    else
      var init := Rle(xs[..|xs| - 1]);
      var x := Last(xs);
      if |init| > 0 && Last(init).level == x then
        init[..|init| - 1] + [Run(x, Last(init).n + 1)]
      else
        init + [Run(x, 1)]
  }

  /** n copies of x. */
  function Repeat(x: real, n: nat): (r: seq<real>)
    ensures |r| == n
  {
    if n == 0 then [] else Repeat(x, n - 1) + [x]
  }

  lemma {:induction false} RepeatAt(x: real, n: nat, i: nat)
    requires i < n
    ensures Repeat(x, n)[i] == x
    decreases n
  {
    if i < n - 1 {
      RepeatAt(x, n - 1, i);
    }
  }

  /** The bins the runs stand for (rle.decode). */
  function Expand(runs: seq<Run>): seq<real>
    decreases |runs|
  {
    if |runs| == 0 then []
    else Expand(runs[..|runs| - 1]) + Repeat(Last(runs).level, Last(runs).n)
  }

  lemma ExpandSnoc(runs: seq<Run>, run: Run)
    ensures Expand(runs + [run]) == Expand(runs) + Repeat(run.level, run.n)
  {
    assert (runs + [run])[..|runs|] == runs;
  }

  /** Bins covered by the first k runs: sum(lengths[:k]). */
  function Ends(runs: seq<Run>, k: nat): nat
    requires k <= |runs|
  {
    if k == 0 then 0 else Ends(runs, k - 1) + runs[k - 1].n
  }

  lemma {:induction false} ExpandLength(runs: seq<Run>)
    ensures |Expand(runs)| == Ends(runs, |runs|)
    decreases |runs|
  {
    if |runs| > 0 {
      var init := runs[..|runs| - 1];
      ExpandLength(init);
      EndsPrefix(runs, |runs| - 1, |runs| - 1);
    }
  }

  /** Ends only looks at the runs it sums. */
  lemma {:induction false} EndsPrefix(runs: seq<Run>, m: nat, k: nat)
    requires k <= m <= |runs|
    ensures Ends(runs[..m], k) == Ends(runs, k)
    decreases k
  {
    if k > 0 {
      EndsPrefix(runs, m, k - 1);
    }
  }

  lemma {:induction false} EndsMonotone(runs: seq<Run>, a: nat, b: nat)
    requires a <= b <= |runs|
    ensures Ends(runs, a) <= Ends(runs, b)
    decreases b
  {
    if a < b {
      EndsMonotone(runs, a, b - 1);
    }
  }

  /** Lengthening the last run by one appends one bin. */
  lemma ExpandGrow(pre: seq<Run>, l: real, n: nat)
    ensures Expand(pre + [Run(l, n + 1)]) == Expand(pre + [Run(l, n)]) + [l]
  {
    ExpandSnoc(pre, Run(l, n + 1));
    ExpandSnoc(pre, Run(l, n));
    var a := Expand(pre);
    var b := Repeat(l, n);
    assert a + (b + [l]) == (a + b) + [l];
  }

  /** Decoding the encoding gives the input back. */
  lemma {:induction false} RleRoundTrip(xs: seq<real>)
    ensures Expand(Rle(xs)) == xs
    decreases |xs|
  {
    if |xs| > 0 {
      var pre := xs[..|xs| - 1];
      var init := Rle(pre);
      var x := Last(xs);
      RleRoundTrip(pre);
      assert pre + [x] == xs;
      if |init| > 0 && Last(init).level == x {
        var m := |init| - 1;
        assert Rle(xs) == init[..m] + [Run(x, init[m].n + 1)];
        assert init[..m] + [Run(x, init[m].n)] == init;
        ExpandGrow(init[..m], x, init[m].n);
        assert Expand(Rle(xs)) == Expand(init) + [x];
      } else {
        assert Rle(xs) == init + [Run(x, 1)];
        ExpandSnoc(init, Run(x, 1));
        assert Repeat(x, 1) == [x];
        assert Expand(Rle(xs)) == Expand(init) + [x];
      }
    }
  }

  /** Bin b of the decoding lies in run i exactly when Ends(i) <= b <
      Ends(i + 1), and carries run i's level. */
  lemma {:induction false} ExpandAt(runs: seq<Run>, i: nat, b: nat)
    requires i < |runs| && Ends(runs, i) <= b < Ends(runs, i + 1)
    ensures b < |Expand(runs)| && Expand(runs)[b] == runs[i].level
    decreases |runs|
  {
    var m := |runs| - 1;
    var init := runs[..m];
    ExpandLength(init);
    EndsPrefix(runs, m, m);
    if i < m {
      EndsPrefix(runs, m, i);
      EndsPrefix(runs, m, i + 1);
      ExpandAt(init, i, b);
      EndsMonotone(runs, i + 1, m);
    } else {
      RepeatAt(runs[m].level, runs[m].n, b - Ends(runs, m));
    }
  }

  /** One output row of get_seg. */
  datatype Segment = Segment(chr: string, start: int, end: int, log2r: real, len: int)

  /** get_seg for one chromosome: run i spans bins [Ends(i), Ends(i+1)),
      which are scaled by 1000; len = end - start. With no bins the row
      columns have unequal lengths ([0] against []) and the frame cannot be
      built. */
  function GetSeg(idx: string, levels: seq<real>): (r: Result<seq<Segment>>)
    ensures r.Err? <==> |levels| == 0
    ensures r.Ok? ==> |r.value| == |Rle(levels)| && forall s :: s in r.value ==> s.chr == idx
  {
    if |levels| == 0 then Err(ValueError)
    else
      var runs := Rle(levels);
      Ok(seq(|runs|, i requires 0 <= i < |runs| =>
        Segment(idx, 1000 * Ends(runs, i), 1000 * Ends(runs, i + 1), runs[i].level,
                1000 * Ends(runs, i + 1) - 1000 * Ends(runs, i))))
  }

  /** The segments cover [0, 1000 * bins): the first starts at 0 and the
      last ends at 1000 * bins. */
  lemma SegmentsCover(idx: string, levels: seq<real>)
    requires |levels| > 0
    ensures var s := GetSeg(idx, levels).value;
      s[0].start == 0 && Last(s).end == 1000 * |levels|
  {
    var runs := Rle(levels);
    RleRoundTrip(levels);
    ExpandLength(runs);
  }

  /** The fields of segment i, in terms of the runs. */
  lemma SegAt(idx: string, levels: seq<real>, i: nat)
    requires |levels| > 0 && i < |Rle(levels)|
    ensures GetSeg(idx, levels).Ok? && i < |GetSeg(idx, levels).value|
    ensures var runs := Rle(levels);
      var x := GetSeg(idx, levels).value[i];
      x.start == 1000 * Ends(runs, i) && x.end == 1000 * Ends(runs, i + 1) &&
      x.log2r == runs[i].level && x.len == x.end - x.start
  {
  }

  /** Segment i is 1000 bp per bin of run i, so at least 1000 long. */
  lemma SegLength(idx: string, levels: seq<real>, i: nat)
    requires |levels| > 0 && i < |Rle(levels)|
    ensures var x := GetSeg(idx, levels).value[i];
      x.len == x.end - x.start == 1000 * Rle(levels)[i].n && x.len >= 1000
  {
    var runs := Rle(levels);
    SegAt(idx, levels, i);
    assert Ends(runs, i + 1) == Ends(runs, i) + runs[i].n;
  }

  /** Segment i ends where segment i + 1 starts, at another level. */
  lemma SegNext(idx: string, levels: seq<real>, i: nat)
    requires |levels| > 0 && i + 1 < |Rle(levels)|
    ensures var s := GetSeg(idx, levels).value;
      s[i].end == s[i + 1].start && s[i].log2r != s[i + 1].log2r
  {
    var runs := Rle(levels);
    SegAt(idx, levels, i);
    SegAt(idx, levels, i + 1);
    assert runs[i].level != runs[i + 1].level;
  }

  /** Segment i is 1000 * its run length long (at least 1000), ends where
      segment i + 1 starts, and has a different level from it. */
  lemma SegmentShape(idx: string, levels: seq<real>, i: nat)
    requires |levels| > 0 && i < |GetSeg(idx, levels).value|
    ensures var s := GetSeg(idx, levels).value;
      && s[i].len == s[i].end - s[i].start == 1000 * Rle(levels)[i].n
      && s[i].len >= 1000
      && (i + 1 < |s| ==> s[i].end == s[i + 1].start && s[i].log2r != s[i + 1].log2r)
  {
    SegLength(idx, levels, i);
    if i + 1 < |Rle(levels)| {
      SegNext(idx, levels, i);
    }
  }

  /** Every bin inside a segment has that segment's level, so the segments
      describe the segmenter's output exactly. */
  lemma SegmentLevels(idx: string, levels: seq<real>, i: nat, b: nat)
    requires |levels| > 0
    requires i < |GetSeg(idx, levels).value|
    requires GetSeg(idx, levels).value[i].start <= 1000 * b < GetSeg(idx, levels).value[i].end
    ensures b < |levels| && levels[b] == GetSeg(idx, levels).value[i].log2r
  {
    var runs := Rle(levels);
    RleRoundTrip(levels);
    ExpandAt(runs, i, b);
  }

  /** The chromosomes get_all_seg visits: chr1 .. chr22, then chrX. */
  function ChromList(): (r: seq<string>)
    ensures |r| == 23 && r[0] == "chr1" && r[22] == "chrX"
  {
    seq(22, i requires 0 <= i < 22 => "chr" + NatToString(i + 1)) + ["chrX"]
  }

  /** get_all_seg over a list of chromosomes: the frames concatenated in
      order; the first chromosome without bins raises. */
  function AllSeg(levelsOf: string -> seq<real>, cs: seq<string>): (r: Result<seq<Segment>>)
    ensures r.Ok? ==> forall s :: s in r.value ==> s.chr in cs
    decreases |cs|
  {
    if |cs| == 0 then Ok([])
    else
      var init :- AllSeg(levelsOf, cs[..|cs| - 1]);
      var c := Last(cs);
      var s :- GetSeg(c, levelsOf(c));
      Ok(init + s)
  }

  /** get_all_seg fails exactly when some chromosome has no bins. */
  lemma {:induction false} AllSegFails(levelsOf: string -> seq<real>, cs: seq<string>)
    ensures AllSeg(levelsOf, cs).Err? <==> exists c :: c in cs && |levelsOf(c)| == 0
    decreases |cs|
  {
    if |cs| > 0 {
      var init := cs[..|cs| - 1];
      AllSegFails(levelsOf, init);
      assert forall c :: c in cs <==> c in init || c == Last(cs);
    }
  }

  /** A failure on a prefix is the failure of the whole list. */
  lemma {:induction false} AllSegErrorSticks(levelsOf: string -> seq<real>, cs: seq<string>, n: nat)
    requires n <= |cs| && AllSeg(levelsOf, cs[..n]).Err?
    ensures AllSeg(levelsOf, cs) == AllSeg(levelsOf, cs[..n])
    decreases |cs|
  {
    if n < |cs| {
      var init := cs[..|cs| - 1];
      assert init[..n] == cs[..n];
      AllSegErrorSticks(levelsOf, init, n);
    } else {
      assert cs[..n] == cs;
    }
  }

  /** get_all_seg: the loop over chromosomes appending each frame. */
  method GetAllSeg(levelsOf: string -> seq<real>) returns (r: Result<seq<Segment>>)
    ensures r == AllSeg(levelsOf, ChromList())
  {
    var cs := ChromList();
    var out: seq<Segment> := [];
    var i := 0;
    while i < |cs|
      invariant 0 <= i <= |cs|
      invariant AllSeg(levelsOf, cs[..i]) == Ok(out)
    {
      var tmp := GetSeg(cs[i], levelsOf(cs[i]));
      assert cs[..i + 1][..i] == cs[..i];
      if tmp.Err? {
        AllSegErrorSticks(levelsOf, cs, i + 1);
        return Err(ValueError);
      }
      out := out + tmp.value;
      i := i + 1;
    }
    assert cs[..i] == cs;
    r := Ok(out);
  }

  // ---------------------------------------------------------------------
  // thresholds and levels. Each constant is the exact value of the
  // float64 the program compares against; log2 bounds are log2 of the
  // float64 products (e.g. 3*1.1/2 = 1.6500000000000001).

  const GainLow: real := 0.40000000000000002220446049250313080847263336181640625
  const LossHigh: real := -0.8000000000000000444089209850062616169452667236328125
  const HomDelMax: real := -1.524999999999999911182158029987476766109466552734375
  const HetDelLo: real := -1.152003093445050030396714646485634148120880126953125
  const HetDelHi: real := -0.86249647625006498063982007806771434843540191650390625
  const NmlLo: real := -0.1520030934450499471299877995988936163485050201416015625
  const NmlHi: real := 0.13750352374993501936017992193228565156459808349609375
  const DupLo: real := 0.4329594072761062673038168213679455220699310302734375
  const DupHi: real := 0.722466024471091206038408927270211279392242431640625
  const TrpLo: real := 0.84799690655495008062558781603001989424228668212890625
  const TrpHi: real := 1.137503523749935130382482384447939693927764892578125
  const MulGainMin: real := 1.1750000000000000444089209850062616169452667236328125

  /** A gain segment: 0.4 < log2r < 3 and at least 10000 bp. */
  predicate IsGain(s: Segment) {
    GainLow < s.log2r < 3.0 && s.len >= 10000
  }

  /** A loss segment: -5 < log2r < -0.8 and at least 10000 bp. */
  predicate IsLoss(s: Segment) {
    s.log2r < LossHigh && s.log2r > -5.0 && s.len >= 10000
  }

  lemma GainLossDisjoint(s: Segment)
    ensures !(IsGain(s) && IsLoss(s))
  {
  }

  /** The labels of the six bands, in condition order. */
  function Labels(): seq<string> {
    ["HOM_DEL", "HET_DEL", "NML", "DUP", "TRP", "MUL_GAIN"]
  }

  /** Condition k of mutate_log_lvl. */
  predicate InBand(k: nat, x: real) {
    match k
    case 0 => x <= HomDelMax
    case 1 => HetDelLo <= x <= HetDelHi
    case 2 => NmlLo <= x <= NmlHi
    case 3 => DupLo <= x <= DupHi
    case 4 => TrpLo <= x <= TrpHi
    case 5 => x >= MulGainMin
    case _ => false
  }

  /** mutate_log_lvl: np.select, the first true condition wins, UND when
      none holds. */
  function MutateLogLvl(x: real): (r: string)
    ensures r in Labels() || r == "UND"
  {
    if x <= HomDelMax then "HOM_DEL"
    else if HetDelLo <= x <= HetDelHi then "HET_DEL"
    else if NmlLo <= x <= NmlHi then "NML"
    else if DupLo <= x <= DupHi then "DUP"
    else if TrpLo <= x <= TrpHi then "TRP"
    else if x >= MulGainMin then "MUL_GAIN"
    else "UND"
  }

  /** No value lies in two bands, so the order of the conditions does not
      matter. */
  lemma BandsDisjoint(j: nat, k: nat, x: real)
    requires j < k
    ensures !(InBand(j, x) && InBand(k, x))
  {
  }

  /** The label is band k's exactly when x is in band k, and UND exactly
      when x is in no band. */
  lemma LevelIff(x: real)
    ensures forall k :: 0 <= k < 6 ==> (MutateLogLvl(x) == Labels()[k] <==> InBand(k, x))
    ensures MutateLogLvl(x) == "UND" <==> forall k :: 0 <= k < 6 ==> !InBand(k, x)
  {
    var ls := Labels();
    assert forall k :: 0 <= k < 6 ==> ls[k] != "UND";
    assert ls[0] == "HOM_DEL" && ls[1] == "HET_DEL" && ls[2] == "NML";
    assert ls[3] == "DUP" && ls[4] == "TRP" && ls[5] == "MUL_GAIN";
    assert InBand(0, x) == (x <= HomDelMax);
    assert InBand(1, x) == (HetDelLo <= x <= HetDelHi);
    assert InBand(2, x) == (NmlLo <= x <= NmlHi);
    assert InBand(3, x) == (DupLo <= x <= DupHi);
    assert InBand(4, x) == (TrpLo <= x <= TrpHi);
    assert InBand(5, x) == (x >= MulGainMin);
  }

  lemma Log2OfThreeHalvesIsDup()
    ensures MutateLogLvl(0.58) == "DUP"
  {
  }

  /** A gain is never labelled normal or a deletion; a loss is never
      labelled normal or a gain. */
  lemma ThresholdLevels(s: Segment)
    ensures IsGain(s) ==> MutateLogLvl(s.log2r) !in {"NML", "HET_DEL", "HOM_DEL"}
    ensures IsLoss(s) ==> MutateLogLvl(s.log2r) !in {"NML", "DUP", "TRP", "MUL_GAIN"}
  {
  }

  // ---------------------------------------------------------------------
  // get_all_cnv

  /** One call of get_all_cnv: the segment, its type (gain/loss), its SV
      id (absent in the earlier revision) and its level. */
  datatype CnvRow = CnvRow(seg: Segment, kind: string, svId: Option<string>, cnvLvl: string)

  /** The filter of one call type. */
  predicate Passes(s: Segment, gain: bool) {
    if gain then IsGain(s) else IsLoss(s)
  }

  /** The rows of y passing the gain (or the loss) filter, in order. */
  function Select(y: seq<Segment>, gain: bool): (r: seq<Segment>)
    ensures |r| <= |y|
    decreases |y|
  {
    if |y| == 0 then []
    else
      var init := Select(y[..|y| - 1], gain);
      if Passes(Last(y), gain) then init + [Last(y)] else init
  }

  /** A segment is selected exactly when it is in y and passes the filter. */
  lemma {:induction false} SelectIff(y: seq<Segment>, gain: bool, s: Segment)
    ensures s in Select(y, gain) <==> s in y && Passes(s, gain)
    decreases |y|
  {
    if |y| > 0 {
      var pre := y[..|y| - 1];
      SelectIff(pre, gain, s);
      assert y == pre + [Last(y)];
    }
  }

  function Tagged(segs: seq<Segment>, kind: string): (r: seq<CnvRow>)
    ensures |r| == |segs|
  {
    seq(|segs|, i requires 0 <= i < |segs| => CnvRow(segs[i], kind, None, MutateLogLvl(segs[i].log2r)))
  }

  /** get_all_cnv of the earlier revision: the gains, then the losses,
      each with its level and no SV id. */
  function Called(y: seq<Segment>): (r: seq<CnvRow>)
    ensures |r| == |Select(y, true)| + |Select(y, false)|
  {
    Tagged(Select(y, true), "gain") + Tagged(Select(y, false), "loss")
  }

  /** The layout of Called: the gains at 0 .. g-1, the losses after. */
  lemma CalledAt(y: seq<Segment>, i: nat)
    requires i < |Called(y)|
    ensures var g := Select(y, true);
      i < |g| ==> Called(y)[i] == CnvRow(g[i], "gain", None, MutateLogLvl(g[i].log2r))
    ensures var g := Select(y, true); var l := Select(y, false);
      i >= |g| ==> Called(y)[i] == CnvRow(l[i - |g|], "loss", None, MutateLogLvl(l[i - |g|].log2r))
  {
  }

  /** Every call comes from a segment of y past its type's threshold, has
      no SV id, and carries that segment's level. */
  lemma CalledSound(y: seq<Segment>, i: nat)
    requires i < |Called(y)|
    ensures var c := Called(y)[i];
      && c.seg in y && c.svId.None? && c.cnvLvl == MutateLogLvl(c.seg.log2r)
      && ((c.kind == "gain" && IsGain(c.seg)) || (c.kind == "loss" && IsLoss(c.seg)))
  {
    var g := Select(y, true);
    var l := Select(y, false);
    CalledAt(y, i);
    if i < |g| {
      assert g[i] in g;
      SelectIff(y, true, g[i]);
    } else {
      assert l[i - |g|] in l;
      SelectIff(y, false, l[i - |g|]);
    }
  }

  /** Every gain and every loss segment becomes a call. */
  lemma CalledComplete(y: seq<Segment>, s: Segment)
    requires s in y && (IsGain(s) || IsLoss(s))
    ensures exists i :: 0 <= i < |Called(y)| && Called(y)[i].seg == s
  {
    var g := Select(y, true);
    var l := Select(y, false);
    if IsGain(s) {
      SelectIff(y, true, s);
      var i :| 0 <= i < |g| && g[i] == s;
      CalledAt(y, i);
    } else {
      GainLossDisjoint(s);
      SelectIff(y, false, s);
      var i :| 0 <= i < |l| && l[i] == s;
      CalledAt(y, |g| + i);
    }
  }

  function Kinds(rows: seq<CnvRow>): (r: seq<string>)
    ensures |r| == |rows| && forall i :: 0 <= i < |rows| ==> r[i] == rows[i].kind
  {
    seq(|rows|, i requires 0 <= i < |rows| => rows[i].kind)
  }

  /** type + '_' + str(n).zfill(5). */
  function SvId(kind: string, n: nat): string {
    kind + "_" + ZFill(NatToString(n), 5)
  }

  /** SV_id: groupby('type').cumcount() + 1, i.e. one more than the number
      of earlier rows of the same type. */
  function WithIds(rows: seq<CnvRow>): (r: seq<CnvRow>)
    ensures |r| == |rows|
  {
    var ks := Kinds(rows);
    seq(|rows|, i requires 0 <= i < |rows| =>
      rows[i].(svId := Some(SvId(rows[i].kind, Relabel.CountKey(ks[..i], rows[i].kind) + 1))))
  }

  /** get_all_cnv of the later revision. */
  function GetAllCnv(y: seq<Segment>): (r: seq<CnvRow>)
    ensures |r| == |Called(y)|
  {
    WithIds(Called(y))
  }

  /** In a table of g gains followed by losses, the first i rows hold
      min(i, g) gains and i - g losses once past the gains. */
  lemma {:induction false} KindCountsSplit(ks: seq<string>, g: nat, i: nat)
    requires i <= |ks|
    requires forall j :: 0 <= j < |ks| ==> ks[j] == if j < g then "gain" else "loss"
    ensures Relabel.CountKey(ks[..i], "gain") == if i < g then i else g
    ensures Relabel.CountKey(ks[..i], "loss") == if i < g then 0 else i - g
    decreases i
  {
    if i > 0 {
      assert ks[..i][..i - 1] == ks[..i - 1];
      KindCountsSplit(ks, g, i - 1);
    }
  }

  /** Different numbers give different ids within one type. */
  lemma SvIdInjective(kind: string, a: nat, b: nat)
    ensures a != b ==> SvId(kind, a) != SvId(kind, b)
  {
    if SvId(kind, a) == SvId(kind, b) {
      assert ZFill(NatToString(a), 5) == SvId(kind, a)[|kind| + 1..];
      assert ZFill(NatToString(b), 5) == SvId(kind, b)[|kind| + 1..];
      ZFillInjective(a, b, 5);
    }
  }

  /** The type column of Called: gain for the first g rows, loss after. */
  lemma CalledKinds(y: seq<Segment>)
    ensures var g := |Select(y, true)|; var ks := Kinds(Called(y));
      forall j :: 0 <= j < |ks| ==> ks[j] == if j < g then "gain" else "loss"
  {
    forall j | 0 <= j < |Called(y)| ensures Called(y)[j].kind == if j < |Select(y, true)| then "gain" else "loss" {
      CalledAt(y, j);
    }
  }

  /** WithIds only fills in the id of row i. */
  lemma WithIdsAt(rows: seq<CnvRow>, i: nat)
    requires i < |rows|
    ensures WithIds(rows)[i] == rows[i].(svId := Some(SvId(rows[i].kind, Relabel.CountKey(Kinds(rows)[..i], rows[i].kind) + 1)))
  {
  }

  /** The gains are numbered gain_00001, gain_00002, ... in row order. */
  lemma GainIds(y: seq<Segment>, i: nat)
    requires i < |Select(y, true)|
    ensures i < |GetAllCnv(y)| && GetAllCnv(y)[i].svId == Some(SvId("gain", i + 1))
  {
    var rows := Called(y);
    CalledKinds(y);
    WithIdsAt(rows, i);
    KindCountsSplit(Kinds(rows), |Select(y, true)|, i);
  }

  /** The losses follow the gains and are numbered loss_00001, ... */
  lemma LossIds(y: seq<Segment>, i: nat)
    requires |Select(y, true)| <= i < |GetAllCnv(y)|
    ensures GetAllCnv(y)[i].svId == Some(SvId("loss", i - |Select(y, true)| + 1))
  {
    var rows := Called(y);
    var g := |Select(y, true)|;
    CalledKinds(y);
    assert rows[i].kind == "loss";
    KindCountsSplit(Kinds(rows), g, i);
    assert Relabel.CountKey(Kinds(rows)[..i], rows[i].kind) == i - g;
    WithIdsAt(rows, i);
  }

  /** A gain id is never a loss id. */
  lemma GainIsNotLoss(a: nat, b: nat)
    ensures SvId("gain", a) != SvId("loss", b)
  {
    assert SvId("gain", a)[0] == 'g' && SvId("loss", b)[0] == 'l';
  }

  /** Two gains get different ids. */
  lemma GainIdsDistinct(y: seq<Segment>, i: nat, j: nat)
    requires i < j < |Select(y, true)|
    ensures GetAllCnv(y)[i].svId != GetAllCnv(y)[j].svId
  {
    SvIdInjective("gain", i + 1, j + 1);
    var a, b := SvId("gain", i + 1), SvId("gain", j + 1);
    assert a != b;
    GainIds(y, i);
    GainIds(y, j);
    assert GetAllCnv(y)[i].svId == Some(a) && GetAllCnv(y)[j].svId == Some(b);
  }

  /** A gain and a loss get different ids. */
  lemma GainLossIdsDistinct(y: seq<Segment>, i: nat, j: nat)
    requires i < |Select(y, true)| <= j < |GetAllCnv(y)|
    ensures GetAllCnv(y)[i].svId != GetAllCnv(y)[j].svId
  {
    var g := |Select(y, true)|;
    GainIsNotLoss(i + 1, j - g + 1);
    var a, b := SvId("gain", i + 1), SvId("loss", j - g + 1);
    assert a != b;
    GainIds(y, i);
    LossIds(y, j);
    assert GetAllCnv(y)[i].svId == Some(a) && GetAllCnv(y)[j].svId == Some(b);
  }

  /** Two losses get different ids. */
  lemma LossIdsDistinct(y: seq<Segment>, i: nat, j: nat)
    requires |Select(y, true)| <= i < j < |GetAllCnv(y)|
    ensures GetAllCnv(y)[i].svId != GetAllCnv(y)[j].svId
  {
    var g := |Select(y, true)|;
    var m, n := i - g + 1, j - g + 1;
    SvIdInjective("loss", m, n);
    LossIds(y, i);
    LossIds(y, j);
  }

  /** SV ids are unique within a sample's calls. */
  lemma SvIdsDistinct(y: seq<Segment>, i: nat, j: nat)
    requires i < j < |GetAllCnv(y)|
    ensures GetAllCnv(y)[i].svId != GetAllCnv(y)[j].svId
  {
    var g := |Select(y, true)|;
    if j < g {
      GainIdsDistinct(y, i, j);
    } else if i < g {
      GainLossIdsDistinct(y, i, j);
    } else {
      LossIdsDistinct(y, i, j);
    }
  }
}
