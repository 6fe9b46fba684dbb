/** The complex-genomic-rearrangement reconciliation (CGR_cluster.process_cnv):
    every read-depth CNV of a patient is paired with the long-read SV nearest
    to its start and the SV nearest to its end, and flags say whether the two
    are one SV of the CNV's type and size. */
module Cgr {
  import opened Wrappers
  import Annotate

  /** An SV row of the patient: chr carries the 'chr' prefix. */
  datatype Sv = Sv(chr: string, start: int, end: int, svId: string, svType: string)

  /** The columns of a CNV row the reconciliation reads. */
  datatype Cnv = Cnv(chr: string, start: int, end: int, len: int, kind: string)

  /** One output row: the CNV, its left and right SVs with their widths,
      the two distances and the 0/1 match flags. */
  datatype Match = Match(
    cnv: Cnv, left: Sv, leftWidth: nat, right: Sv, rightWidth: nat,
    leftDist: nat, rightDist: nat,
    matchSv: bool, matchLeftSize: bool, matchRightSize: bool,
    matchLeftType: bool, matchRightType: bool, matchCnvSv: bool)

  /** SVs spanning no more than this are not candidates. */
  const MinSpan := 1000
  /** A CNV and an SV are of one size when their lengths differ by less. */
  const SizeSlack := 2000

  function Width(s: Sv): nat {
    Annotate.Abs(s.start - s.end)
  }

  /** The SVs kept as candidates, in table order. */
  function Candidates(p2: seq<Sv>): (r: seq<Sv>)
    ensures |r| <= |p2|
    ensures forall s :: s in r <==> s in p2 && Width(s) > MinSpan
  {
    if |p2| == 0 then []
    else
      var init := Candidates(p2[..|p2| - 1]);
      assert p2 == p2[..|p2| - 1] + [p2[|p2| - 1]];
      if Width(p2[|p2| - 1]) > MinSpan then init + [p2[|p2| - 1]] else init
  }

  /** Some candidate lies on chromosome c: the group-by dictionary has the
      key c. */
  predicate HasChrom(ps: seq<Sv>, c: string) {
    exists j :: 0 <= j < |ps| && ps[j].chr == c
  }

  /** The distance of a position to an SV's start, or to its end. */
  function Dist(s: Sv, x: int, byEnd: bool): nat {
    if byEnd then Annotate.Abs(x - s.end) else Annotate.Abs(x - s.start)
  }

  /** The distance of a position to the nearer end of an SV. */
  function Near(s: Sv, x: int): nat {
    Annotate.Min(Annotate.Abs(x - s.start), Annotate.Abs(x - s.end))
  }

  /** idxmin over the chromosome-c candidates among the first n rows: the
      first index at which the distance is least. */
  function ClosestIn(ps: seq<Sv>, c: string, x: int, byEnd: bool, n: nat): (r: Option<nat>)
    requires n <= |ps|
    ensures r.None? <==> forall j :: 0 <= j < n ==> ps[j].chr != c
    ensures r.Some? ==> r.value < n && ps[r.value].chr == c
    decreases n
  {
    if n == 0 then None
    else
      match ClosestIn(ps, c, x, byEnd, n - 1)
      case None => if ps[n - 1].chr == c then Some(n - 1) else None
      case Some(i) =>
        if ps[n - 1].chr == c && Dist(ps[n - 1], x, byEnd) < Dist(ps[i], x, byEnd) then Some(n - 1) else Some(i)
  }

  /** The index found is a least one, and the first least one. */
  lemma {:induction false} ClosestInLeast(ps: seq<Sv>, c: string, x: int, byEnd: bool, n: nat)
    requires n <= |ps|
    ensures var r := ClosestIn(ps, c, x, byEnd, n);
      r.Some? ==>
        (forall j :: 0 <= j < n && ps[j].chr == c ==> Dist(ps[r.value], x, byEnd) <= Dist(ps[j], x, byEnd)) &&
        (forall j :: 0 <= j < r.value && ps[j].chr == c ==> Dist(ps[r.value], x, byEnd) < Dist(ps[j], x, byEnd))
    decreases n
  {
    if n > 0 {
      ClosestInLeast(ps, c, x, byEnd, n - 1);
    }
  }

  function IdxMin(ps: seq<Sv>, c: string, x: int, byEnd: bool): Option<nat> {
    ClosestIn(ps, c, x, byEnd, |ps|)
  }

  /** The SV matched to position x: the start-nearest one when it is
      strictly closer than the end-nearest one, else the end-nearest one;
      none when no candidate is on chromosome c. */
  function Pick(ps: seq<Sv>, c: string, x: int): (r: Option<nat>)
    ensures r.None? <==> !HasChrom(ps, c)
    ensures r.Some? ==> r.value < |ps| && ps[r.value].chr == c
  {
    match (IdxMin(ps, c, x, false), IdxMin(ps, c, x, true))
    case (Some(i), Some(k)) =>
      if Dist(ps[i], x, false) < Dist(ps[k], x, true) then Some(i) else Some(k)
    case _ => None
  }

  /** The picked SV has an end nearer to x than any end of any other
      candidate on the chromosome. */
  lemma PickNearest(ps: seq<Sv>, c: string, x: int)
    requires HasChrom(ps, c)
    ensures Pick(ps, c, x).Some?
    ensures forall j :: 0 <= j < |ps| && ps[j].chr == c ==> Near(ps[Pick(ps, c, x).value], x) <= Near(ps[j], x)
  {
    ClosestInLeast(ps, c, x, false, |ps|);
    ClosestInLeast(ps, c, x, true, |ps|);
    var i := IdxMin(ps, c, x, false).value;
    var k := IdxMin(ps, c, x, true).value;
    assert Near(ps[Pick(ps, c, x).value], x) <= Annotate.Min(Dist(ps[i], x, false), Dist(ps[k], x, true));
  }

  /** A tie between the nearest start and the nearest end goes to the
      end-based match. */
  lemma PickTieGoesToEnd(ps: seq<Sv>, c: string, x: int, j: nat)
    requires j < |ps| && ps[j].chr == c
    requires forall k :: 0 <= k < |ps| && ps[k].chr == c ==> Dist(ps[j], x, true) <= Dist(ps[k], x, false)
    ensures Pick(ps, c, x) == IdxMin(ps, c, x, true)
  {
    ClosestInLeast(ps, c, x, false, |ps|);
    ClosestInLeast(ps, c, x, true, |ps|);
    var i := IdxMin(ps, c, x, false).value;
    var k := IdxMin(ps, c, x, true).value;
    assert Dist(ps[k], x, true) <= Dist(ps[j], x, true) <= Dist(ps[i], x, false);
  }

  /** The type flag: a gain pairs with a DUP and a loss with a DEL. */
  predicate TypeMatches(kind: string, svType: string) {
    (kind == "gain" && svType == "DUP") || (kind == "loss" && svType == "DEL")
  }

  predicate SizeMatches(len: int, width: nat) {
    Annotate.Abs(len - width) < SizeSlack
  }

  /** right_dist of the SV r matched to the CNV's end: as written, from
      the CNV's start (fixed = false); corrected, from its end
      (fixed = true). */
  function RightDist(c: Cnv, r: Sv, fixed: bool): nat {
    if fixed then Near(r, c.end) else Near(r, c.start)
  }

  /** The row for CNV c with its left and right SVs. */
  function MatchRow(c: Cnv, l: Sv, r: Sv, fixed: bool): Match {
    var sameSv := l.svId == r.svId;
    var leftSize := SizeMatches(c.len, Width(l));
    var leftType := TypeMatches(c.kind, l.svType);
    Match(c, l, Width(l), r, Width(r), Near(l, c.start), RightDist(c, r, fixed),
          sameSv, leftSize, SizeMatches(c.len, Width(r)),
          leftType, TypeMatches(c.kind, r.svType), sameSv && leftType && leftSize)
  }

  /** The row of one CNV among the candidates ps. */
  function MatchOf(ps: seq<Sv>, c: Cnv, fixed: bool): Match
    requires HasChrom(ps, c.chr)
  {
    MatchRow(c, ps[Pick(ps, c.chr, c.start).value], ps[Pick(ps, c.chr, c.end).value], fixed)
  }

  /** process_cnv, as written (fixed = false) or with right_dist measured
      from the CNV's end (fixed = true): a CNV on a chromosome without
      candidates raises KeyError; otherwise there is one row per CNV, in
      CNV order. */
  method ProcessCnv(p2: seq<Sv>, cnv: seq<Cnv>, fixed: bool) returns (r: Result<seq<Match>>)
    ensures r.Err? <==> exists i :: 0 <= i < |cnv| && !HasChrom(Candidates(p2), cnv[i].chr)
    ensures r.Err? ==> r.error == KeyError
    ensures r.Ok? ==> |r.value| == |cnv|
    ensures r.Ok? ==> forall i :: 0 <= i < |cnv| ==>
      HasChrom(Candidates(p2), cnv[i].chr) && r.value[i] == MatchOf(Candidates(p2), cnv[i], fixed)
  {
    var ps := Candidates(p2);
    var leftIdx: seq<nat> := [];
    for i := 0 to |cnv|
      invariant |leftIdx| == i
      invariant forall j :: 0 <= j < i ==> Pick(ps, cnv[j].chr, cnv[j].start) == Some(leftIdx[j])
    {
      var k := Pick(ps, cnv[i].chr, cnv[i].start);
      if k.None? {
        return Err(KeyError);
      }
      leftIdx := leftIdx + [k.value];
    }
    var rightIdx: seq<nat> := [];
    for i := 0 to |cnv|
      invariant |rightIdx| == i
      invariant forall j :: 0 <= j < i ==> Pick(ps, cnv[j].chr, cnv[j].end) == Some(rightIdx[j])
    {
      assert Pick(ps, cnv[i].chr, cnv[i].start).Some?;
      var k := Pick(ps, cnv[i].chr, cnv[i].end);
      rightIdx := rightIdx + [k.value];
    }
    r := Ok(seq(|cnv|, i requires 0 <= i < |cnv| => MatchRow(cnv[i], ps[leftIdx[i]], ps[rightIdx[i]], fixed)));
  }

  /** Both SVs of a row are candidates on the CNV's chromosome, the left
      one has an end nearest to the CNV's start and the right one an end
      nearest to the CNV's end, and left_dist is that least distance from
      the start. Corrected, right_dist is the least distance from the end;
      as written, it is the right SV's distance from the start instead. */
  lemma MatchOfNearest(p2: seq<Sv>, c: Cnv, fixed: bool)
    requires HasChrom(Candidates(p2), c.chr)
    ensures var m := MatchOf(Candidates(p2), c, fixed);
      m.left in p2 && m.right in p2 && m.left.chr == c.chr && m.right.chr == c.chr &&
      m.leftWidth > MinSpan && m.rightWidth > MinSpan &&
      (forall s :: s in p2 && s.chr == c.chr && Width(s) > MinSpan ==> m.leftDist <= Near(s, c.start)) &&
      (forall s :: s in p2 && s.chr == c.chr && Width(s) > MinSpan ==> Near(m.right, c.end) <= Near(s, c.end)) &&
      (fixed ==> forall s :: s in p2 && s.chr == c.chr && Width(s) > MinSpan ==> m.rightDist <= Near(s, c.end)) &&
      (!fixed ==> m.rightDist == Near(m.right, c.start))
  {
    var ps := Candidates(p2);
    PickNearest(ps, c.chr, c.start);
    PickNearest(ps, c.chr, c.end);
    var m := MatchOf(ps, c, fixed);
    assert m.left in ps && m.right in ps;
    forall s | s in p2 && s.chr == c.chr && Width(s) > MinSpan
      ensures m.leftDist <= Near(s, c.start) && Near(m.right, c.end) <= Near(s, c.end)
    {
      var j :| 0 <= j < |ps| && ps[j] == s;
    }
  }

  /** match_CNV_SV holds exactly when one SV is matched at both ends, it is
      of the CNV's type and size; it then requires a gain or a loss, and the
      right-hand flags play no part. */
  lemma CnvSvMatchMeans(ps: seq<Sv>, c: Cnv, fixed: bool)
    requires HasChrom(ps, c.chr)
    ensures var m := MatchOf(ps, c, fixed);
      (m.matchCnvSv <==> m.left.svId == m.right.svId && TypeMatches(c.kind, m.left.svType) &&
                         Annotate.Abs(c.len - m.leftWidth) < SizeSlack) &&
      (m.matchCnvSv ==> c.kind == "gain" || c.kind == "loss")
  {
  }

  // ---------------------------------------------------------------------
  // The right distance as written

  /** A CNV whose end coincides with the end of the only SV on its
      chromosome: the as-written right_dist is 98000, the distance from the
      CNV's end is 0; with left_dist also 98000, the as-written row fails the
      candidate test (left_dist or right_dist at most 1500) that the
      corrected row passes. */
  lemma RightDistFromStartMisses()
    ensures var sv := Sv("chr1", 98000, 100000, "sv1", "DUP");
      var c := Cnv("chr1", 0, 100000, 100000, "gain");
      var ps := Candidates([sv]);
      HasChrom(ps, c.chr) &&
      MatchOf(ps, c, false).right == sv && MatchOf(ps, c, false).leftDist == 98000 &&
      MatchOf(ps, c, false).rightDist == 98000 && MatchOf(ps, c, true).rightDist == 0
  {
    var sv := Sv("chr1", 98000, 100000, "sv1", "DUP");
    var ps := Candidates([sv]);
    assert [sv][..0] == [];
    assert ps == [sv];
    assert ps[0].chr == "chr1";
  }
}
