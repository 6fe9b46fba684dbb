/** The annotation filters of the short-read (P2) and read-depth (CNV)
    pipelines. Each reference table is a list of rows; each filter picks the
    rows that a call overlaps, contains or lies near, and reports some of
    their columns in table order. */
module Annotate {
  import opened Wrappers
  import opened Text

  function Abs(x: int): nat { if x < 0 then -x else x }
  function Max(a: int, b: int): int { if a < b then b else a }
  function Min(a: int, b: int): int { if a < b then a else b }

  /** A row of an interval table (segmental duplications, RefSeq genes,
      RepeatMasker, IDR, ClinGen, DECIPHER syndromes, ISCA regions): its
      chromosome, its bounds and the one text column the filter reports. */
  datatype Feature = Feature(chrom: string, start: int, end: int, name: string)

  // ---------------------------------------------------------------------
  // Boolean-mask selection

  /** df[mask]: the rows for which keep holds, in table order, duplicates
      kept. */
  function Where<T>(rows: seq<T>, keep: T -> bool): (r: seq<T>)
    ensures |r| <= |rows|
    decreases |rows|
  {
    if rows == [] then []
    else
      Where(rows[..|rows| - 1], keep) + (if keep(rows[|rows| - 1]) then [rows[|rows| - 1]] else [])
  }

  /** The selection holds exactly the rows of the table the mask keeps. */
  lemma {:induction false} WhereIff<T(!new)>(rows: seq<T>, keep: T -> bool)
    ensures forall x :: x in Where(rows, keep) <==> x in rows && keep(x)
    decreases |rows|
  {
    if rows != [] {
      var init := rows[..|rows| - 1];
      assert rows == init + [rows[|rows| - 1]];
      WhereIff(init, keep);
    }
  }

  /** A selection of a concatenated table is the concatenation of the
      selections: the mask keeps table order and duplicates. */
  lemma {:induction false} WhereAppend<T>(a: seq<T>, b: seq<T>, keep: T -> bool)
    ensures Where(a + b, keep) == Where(a, keep) + Where(b, keep)
    decreases |b|
  {
    if b != [] {
      var init := b[..|b| - 1];
      assert (a + b)[..|a + b| - 1] == a + init;
      WhereAppend(a, init, keep);
    } else {
      assert a + b == a;
    }
  }

  /** A one-row table keeps its row exactly when the mask holds. */
  lemma WhereSingle<T>(x: T, keep: T -> bool)
    ensures Where([x], keep) == if keep(x) then [x] else []
  {
    assert [x][..0] == [];
  }

  /** The reported column of a selection, Series.tolist(). */
  function NameColumn(rows: seq<Feature>): (r: seq<string>)
    ensures |r| == |rows|
    ensures forall i :: 0 <= i < |rows| ==> r[i] == rows[i].name
  {
    seq(|rows|, i requires 0 <= i < |rows| => rows[i].name)
  }

  /** The masks the interval filters apply to a feature table. */
  datatype Mask =
    | OnChrom(chrom: string)
    | OverlapsCall(chrom: string, start: int, end: int)
    | SpansPos(chrom: string, pos: int)
    | InsideCall(chrom: string, start: int, end: int)

  predicate Holds(m: Mask, g: Feature) {
    match m
    case OnChrom(c) => g.chrom == c
    case OverlapsCall(c, s, e) => Overlaps(g, c, s, e)
    case SpansPos(c, p) => Spans(g, c, p)
    case InsideCall(c, s, e) => Inside(g, c, s, e)
  }

  /** The mask as the boolean column it selects with. */
  function MaskOf(m: Mask): Feature -> bool {
    (g: Feature) => Holds(m, g)
  }

  /** The names of the rows the mask keeps. */
  function Names(rows: seq<Feature>, m: Mask): (r: seq<string>)
    ensures |r| <= |rows|
  {
    NameColumn(Where(rows, MaskOf(m)))
  }

  /** A name is reported exactly when some row the mask keeps carries it. */
  lemma NamesIff(rows: seq<Feature>, m: Mask)
    ensures forall x :: x in Names(rows, m) <==> exists g :: g in rows && Holds(m, g) && g.name == x
  {
    var w := Where(rows, MaskOf(m));
    var r := NameColumn(w);
    WhereIff(rows, MaskOf(m));
    assert forall x :: x in r ==> exists g :: g in w && g.name == x by {
      forall x | x in r ensures exists g :: g in w && g.name == x {
        var i :| 0 <= i < |r| && r[i] == x;
        assert w[i] in w;
      }
    }
    assert forall g :: g in w ==> g.name in r by {
      forall g | g in w ensures g.name in r {
        var i :| 0 <= i < |w| && w[i] == g;
        assert r[i] == g.name;
      }
    }
  }

  // ---------------------------------------------------------------------
  // Interval predicates

  /** The call [start, end] and the feature overlap strictly. */
  predicate Overlaps(g: Feature, chrom: string, start: int, end: int) {
    g.chrom == chrom && g.start < end && g.end > start
  }

  /** The breakpoint pos lies inside the feature, bounds included. */
  predicate Spans(g: Feature, chrom: string, pos: int) {
    g.chrom == chrom && g.start <= pos && pos <= g.end
  }

  /** The feature lies strictly inside the call. */
  predicate Inside(g: Feature, chrom: string, start: int, end: int) {
    g.chrom == chrom && g.start > start && g.end < end
  }

  // ---------------------------------------------------------------------
  // Segmental duplications

  /** The share of the call an SD interval must cover. */
  const SdThreshold: real := 0.98

  /** The SD interval is not disjoint from the call and covers at least
      98% of the call's length. */
  predicate Covers(g: Feature, start: int, end: int) {
    start != end && !(g.start > end || g.end < start) &&
    (Abs(Max(start, g.start) - Min(end, g.end)) as real) / (Abs(start - end) as real) >= SdThreshold
  }

  /** SD_Overlap: false for a breakend or a zero-length call, otherwise
      whether some SD interval on the call's chromosome covers it. */
  predicate SdOverlap(sd: seq<Feature>, chrom: string, start: int, end: int, svType: string) {
    svType != "BND" && start != end &&
    exists g :: g in sd && g.chrom == chrom && Covers(g, start, end)
  }

  /** The search loop of annotate_SD, returning at the first covering
      interval. */
  method AnnotateSd(sd: seq<Feature>, chrom: string, start: int, end: int, svType: string)
    returns (hit: bool)
    ensures hit == SdOverlap(sd, chrom, start, end, svType)
  {
    if svType == "BND" || start == end {
      return false;
    }
    var splice := Where(sd, MaskOf(OnChrom(chrom)));
    WhereIff(sd, MaskOf(OnChrom(chrom)));
    var segmentLen := Abs(start - end);
    for i := 0 to |splice|
      invariant forall j :: 0 <= j < i ==> !Covers(splice[j], start, end)
    {
      var row := splice[i];
      if row.start > end || row.end < start {
        continue;
      }
      var overlapLen := Abs(Max(start, row.start) - Min(end, row.end));
      if (overlapLen as real) / (segmentLen as real) >= SdThreshold {
        assert Covers(row, start, end);
        assert row in splice;
        assert row in sd && row.chrom == chrom;
        return true;
      }
    }
    forall g | g in sd && g.chrom == chrom ensures !Covers(g, start, end) {
      assert g in splice;
      var j :| 0 <= j < |splice| && splice[j] == g;
      assert !Covers(splice[j], start, end);
    }
    assert !SdOverlap(sd, chrom, start, end, svType);
    return false;
  }

  /** An SD interval on the same chromosome that contains the whole call
      marks it, whatever the other rows are. */
  lemma ContainedCallOverlapsSd(sd: seq<Feature>, g: Feature, start: int, end: int, svType: string)
    requires g in sd && svType != "BND"
    requires g.start <= start < end <= g.end
    ensures SdOverlap(sd, g.chrom, start, end, svType)
  {
    assert Abs(Max(start, g.start) - Min(end, g.end)) == Abs(start - end);
    assert Covers(g, start, end);
  }

  /** A call whose interval is disjoint from every SD interval is never
      marked. */
  lemma DisjointCallNotSd(sd: seq<Feature>, chrom: string, start: int, end: int, svType: string)
    requires forall g :: g in sd && g.chrom == chrom ==> g.start > end || g.end < start
    ensures !SdOverlap(sd, chrom, start, end, svType)
  {
  }

  // ---------------------------------------------------------------------
  // OMIM

  /** A row of the OMIM table with a known phenotype. */
  datatype OmimRow = OmimRow(chrom: string, start: int, end: int, symbol: string, pheno: string, inh: string)

  /** The three reported columns, aligned row by row. */
  datatype OmimHits = OmimHits(symbols: seq<string>, names: seq<string>, inh: seq<string>)

  predicate OmimHit(o: OmimRow, chrom: string, start: int, end: int) {
    o.chrom == chrom && o.start < end && o.end > start
  }

  function OmimKeep(chrom: string, start: int, end: int): OmimRow -> bool {
    (o: OmimRow) => OmimHit(o, chrom, start, end)
  }

  /** annotate_OMIM: the three columns of the OMIM rows the call overlaps
      strictly; nothing for a breakend or a zero-length call. */
  function Omim(omim: seq<OmimRow>, chrom: string, start: int, end: int, svType: string): (r: OmimHits)
    ensures |r.symbols| == |r.names| == |r.inh| <= |omim|
  {
    if svType == "BND" || start == end then OmimHits([], [], [])
    else
      var splice := Where(omim, OmimKeep(chrom, start, end));
      if splice == [] then OmimHits([], [], [])
      else
        OmimHits(seq(|splice|, i requires 0 <= i < |splice| => splice[i].symbol),
                 seq(|splice|, i requires 0 <= i < |splice| => splice[i].pheno),
                 seq(|splice|, i requires 0 <= i < |splice| => splice[i].inh))
  }

  /** A symbol is reported exactly when the call is looked up and some OMIM
      row it overlaps carries it; the k-th symbol, phenotype and
      inheritance come from one such row. */
  lemma OmimReports(omim: seq<OmimRow>, chrom: string, start: int, end: int, svType: string)
    ensures var r := Omim(omim, chrom, start, end, svType);
      (svType == "BND" || start == end ==> r == OmimHits([], [], [])) &&
      (forall x :: x in r.symbols <==>
        svType != "BND" && start != end &&
        exists o :: o in omim && OmimHit(o, chrom, start, end) && o.symbol == x) &&
      (forall k :: 0 <= k < |r.symbols| ==>
        exists o :: o in omim && OmimHit(o, chrom, start, end) &&
          o.symbol == r.symbols[k] && o.pheno == r.names[k] && o.inh == r.inh[k])
  {
    var r := Omim(omim, chrom, start, end, svType);
    if svType != "BND" && start != end {
      var splice := Where(omim, OmimKeep(chrom, start, end));
      WhereIff(omim, OmimKeep(chrom, start, end));
      forall k | 0 <= k < |r.symbols|
        ensures exists o :: (o in omim && OmimHit(o, chrom, start, end) &&
                             o.symbol == r.symbols[k] && o.pheno == r.names[k] && o.inh == r.inh[k])
      {
        var o := splice[k];
        assert o in splice;
        assert o.symbol == r.symbols[k] && o.pheno == r.names[k] && o.inh == r.inh[k];
      }
      assert forall o :: o in splice ==> o.symbol in r.symbols by {
        forall o | o in splice ensures o.symbol in r.symbols {
          var k :| 0 <= k < |splice| && splice[k] == o;
          assert r.symbols[k] == o.symbol;
        }
      }
    }
  }

  // ---------------------------------------------------------------------
  // gnomAD-SV and DGV

  /** The tolerance on each breakpoint: thresh*2 with thresh = 500. */
  const Window: int := 1000

  /** A row of the gnomAD-SV site table. */
  datatype GnomadRow = GnomadRow(svtype: string, chrom1: string, pos1: int, pos2: int, svid: string, af: string)

  /** A row of the DGV gold-standard table. */
  datatype DgvRow = DgvRow(dgvType: string, chrom: string, start: int, end: int, id: string, af: string)

  /** The reported identifiers and frequencies, aligned row by row. */
  datatype Matches = Matches(ids: seq<string>, afs: seq<string>)

  predicate GnomadType(t: string) { t == "DUP" || t == "DEL" || t == "INV" }

  predicate GnomadHit(g: GnomadRow, chrom: string, start: int, end: int, svType: string) {
    g.svtype == svType && g.chrom1 == chrom && Abs(g.pos1 - start) < Window && Abs(g.pos2 - end) < Window
  }

  function GnomadKeep(chrom: string, start: int, end: int, svType: string): GnomadRow -> bool {
    (g: GnomadRow) => GnomadHit(g, chrom, start, end, svType)
  }

  /** annotate_gnomad: the identifiers and frequencies of the gnomAD-SV
      sites near the call; only DUP, DEL and INV calls of non-zero length
      are looked up. */
  function Gnomad(gnomad: seq<GnomadRow>, chrom: string, start: int, end: int, svType: string): (r: Matches)
    ensures |r.ids| == |r.afs| <= |gnomad|
  {
    if !GnomadType(svType) || start == end then Matches([], [])
    else
      var splice := Where(gnomad, GnomadKeep(chrom, start, end, svType));
      Matches(seq(|splice|, i requires 0 <= i < |splice| => splice[i].svid),
              seq(|splice|, i requires 0 <= i < |splice| => splice[i].af))
  }

  /** An identifier is reported exactly when some site of the same type on
      the same chromosome has both breakpoints within 1000 bp of the call's;
      the k-th identifier and frequency come from one such site. */
  lemma GnomadReports(gnomad: seq<GnomadRow>, chrom: string, start: int, end: int, svType: string)
    ensures var r := Gnomad(gnomad, chrom, start, end, svType);
      (!GnomadType(svType) || start == end ==> r == Matches([], [])) &&
      (forall x :: x in r.ids <==>
        GnomadType(svType) && start != end &&
        exists g :: g in gnomad && GnomadHit(g, chrom, start, end, svType) && g.svid == x) &&
      (forall k :: 0 <= k < |r.ids| ==>
        exists g :: g in gnomad && GnomadHit(g, chrom, start, end, svType) &&
          g.svid == r.ids[k] && g.af == r.afs[k])
  {
    var r := Gnomad(gnomad, chrom, start, end, svType);
    if GnomadType(svType) && start != end {
      var splice := Where(gnomad, GnomadKeep(chrom, start, end, svType));
      WhereIff(gnomad, GnomadKeep(chrom, start, end, svType));
      forall k | 0 <= k < |r.ids|
        ensures exists g :: (g in gnomad && GnomadHit(g, chrom, start, end, svType) &&
                             g.svid == r.ids[k] && g.af == r.afs[k])
      {
        var g := splice[k];
        assert g in splice;
        assert g.svid == r.ids[k] && g.af == r.afs[k];
      }
      forall x | x in r.ids
        ensures exists g :: g in gnomad && GnomadHit(g, chrom, start, end, svType) && g.svid == x
      {
        var k :| 0 <= k < |r.ids| && r.ids[k] == x;
        var g := splice[k];
        assert g in splice;
      }
      assert forall g :: g in splice ==> g.svid in r.ids by {
        forall g | g in splice ensures g.svid in r.ids {
          var k :| 0 <= k < |splice| && splice[k] == g;
          assert r.ids[k] == g.svid;
        }
      }
    }
  }

  predicate DgvType(t: string) { t == "DUP" || t == "DEL" }

  predicate DgvHit(d: DgvRow, chrom: string, start: int, end: int, svType: string) {
    d.dgvType == svType && d.chrom == chrom &&
    Abs(d.start - start) < Window && Abs(d.end - end) < Window &&
    d.start >= start && d.end <= end
  }

  function DgvKeep(chrom: string, start: int, end: int, svType: string): DgvRow -> bool {
    (d: DgvRow) => DgvHit(d, chrom, start, end, svType)
  }

  /** annotate_DGV: like gnomAD, for DUP and DEL only, and the DGV interval
      must also lie within the call. */
  function Dgv(dgv: seq<DgvRow>, chrom: string, start: int, end: int, svType: string): (r: Matches)
    ensures |r.ids| == |r.afs| <= |dgv|
  {
    if !DgvType(svType) || start == end then Matches([], [])
    else
      var splice := Where(dgv, DgvKeep(chrom, start, end, svType));
      Matches(seq(|splice|, i requires 0 <= i < |splice| => splice[i].id),
              seq(|splice|, i requires 0 <= i < |splice| => splice[i].af))
  }

  /** An identifier is reported exactly when some DGV interval of the same
      type lies within the call with both ends within 1000 bp of the
      call's; the k-th identifier and frequency come from one such row. */
  lemma DgvReports(dgv: seq<DgvRow>, chrom: string, start: int, end: int, svType: string)
    ensures var r := Dgv(dgv, chrom, start, end, svType);
      (!DgvType(svType) || start == end ==> r == Matches([], [])) &&
      (forall x :: x in r.ids <==>
        DgvType(svType) && start != end &&
        exists d :: d in dgv && DgvHit(d, chrom, start, end, svType) && d.id == x) &&
      (forall k :: 0 <= k < |r.ids| ==>
        exists d :: d in dgv && DgvHit(d, chrom, start, end, svType) &&
          d.id == r.ids[k] && d.af == r.afs[k])
  {
    var r := Dgv(dgv, chrom, start, end, svType);
    if DgvType(svType) && start != end {
      var splice := Where(dgv, DgvKeep(chrom, start, end, svType));
      WhereIff(dgv, DgvKeep(chrom, start, end, svType));
      forall k | 0 <= k < |r.ids|
        ensures exists d :: (d in dgv && DgvHit(d, chrom, start, end, svType) &&
                             d.id == r.ids[k] && d.af == r.afs[k])
      {
        var d := splice[k];
        assert d in splice;
        assert d.id == r.ids[k] && d.af == r.afs[k];
      }
      forall x | x in r.ids
        ensures exists d :: d in dgv && DgvHit(d, chrom, start, end, svType) && d.id == x
      {
        var k :| 0 <= k < |r.ids| && r.ids[k] == x;
        var d := splice[k];
        assert d in splice;
      }
      assert forall d :: d in splice ==> d.id in r.ids by {
        forall d | d in splice ensures d.id in r.ids {
          var k :| 0 <= k < |splice| && splice[k] == d;
          assert r.ids[k] == d.id;
        }
      }
    }
  }

  // ---------------------------------------------------------------------
  // RefSeq and RepeatMasker

  /** The genes the call overlaps, and the genes holding its left and its
      right breakpoint. */
  datatype GeneHits = GeneHits(symbols: seq<string>, left: seq<string>, right: seq<string>)

  /** annotate_RefSeq: a zero-length call reports nothing; a non-breakend
      call reports the genes it overlaps strictly, or nothing at all when
      there are none; the left and right lists hold the genes whose bounds
      include pos1 on chrom1 and pos2 on chrom2. */
  function RefSeq(rs: seq<Feature>, chrom1: string, start: int, chrom2: string, end: int, svType: string): (r: GeneHits)
    ensures svType == "BND" ==> r.symbols == []
  {
    if start == end then GeneHits([], [], [])
    else
      var symbol := Names(rs, OverlapsCall(chrom1, start, end));
      if svType != "BND" && symbol == [] then GeneHits([], [], [])
      else
        GeneHits(if svType != "BND" then symbol else [],
                 Names(rs, SpansPos(chrom1, start)),
                 Names(rs, SpansPos(chrom2, end)))
  }

  /** The three lists of annotate_RefSeq, stated by membership: the
      overlapped genes (non-breakends), and the genes holding each
      breakpoint, bounds included, unless the call is zero-length or a
      non-breakend that overlaps no gene. */
  lemma RefSeqReports(rs: seq<Feature>, chrom1: string, start: int, chrom2: string, end: int, svType: string)
    ensures var r := RefSeq(rs, chrom1, start, chrom2, end, svType);
      (start == end ==> r == GeneHits([], [], [])) &&
      (svType != "BND" ==>
        forall x :: x in r.symbols <==> start != end && exists g :: g in rs && Overlaps(g, chrom1, start, end) && g.name == x) &&
      (svType != "BND" && r.symbols == [] ==> r == GeneHits([], [], [])) &&
      (start != end && (svType == "BND" || r.symbols != []) ==>
        (forall x :: x in r.left <==> exists g :: g in rs && Spans(g, chrom1, start) && g.name == x) &&
        (forall x :: x in r.right <==> exists g :: g in rs && Spans(g, chrom2, end) && g.name == x))
  {
    NamesIff(rs, OverlapsCall(chrom1, start, end));
    NamesIff(rs, SpansPos(chrom1, start));
    NamesIff(rs, SpansPos(chrom2, end));
  }

  /** A breakend with a gene holding its left breakpoint always reports a
      left gene, whether or not it overlaps any gene. */
  lemma BreakendAlwaysLooksUp(rs: seq<Feature>, g: Feature, chrom1: string, start: int, chrom2: string, end: int)
    requires start != end
    requires g in rs && Spans(g, chrom1, start)
    ensures g.name in RefSeq(rs, chrom1, start, chrom2, end, "BND").left
  {
    RefSeqReports(rs, chrom1, start, chrom2, end, "BND");
  }

  /** When a non-breakend call overlaps some gene h, a gene g holding its
      left breakpoint is reported on the left, and h among the symbols. */
  lemma BreakpointGeneReported(rs: seq<Feature>, g: Feature, h: Feature, chrom1: string, start: int, chrom2: string, end: int, svType: string)
    requires g in rs && Spans(g, chrom1, start)
    requires h in rs && Overlaps(h, chrom1, start, end)
    requires start != end && svType != "BND"
    ensures g.name in RefSeq(rs, chrom1, start, chrom2, end, svType).left
    ensures h.name in RefSeq(rs, chrom1, start, chrom2, end, svType).symbols
  {
    RefSeqReports(rs, chrom1, start, chrom2, end, svType);
  }

  /** annotate_RepeatMask (helper/P2_annotate.py): the repeats whose bounds
      include pos1 on chrom1 and pos2 on chrom2; no short-circuit on the
      type or on a zero-length call. */
  function RepeatMask(rm: seq<Feature>, chrom1: string, start: int, chrom2: string, end: int): (r: (seq<string>, seq<string>))
    ensures |r.0| <= |rm| && |r.1| <= |rm|
  {
    (Names(rm, SpansPos(chrom1, start)),
     Names(rm, SpansPos(chrom2, end)))
  }

  /** The left list holds exactly the repeats spanning pos1 on chrom1, the
      right list those spanning pos2 on chrom2. */
  lemma RepeatMaskReports(rm: seq<Feature>, chrom1: string, start: int, chrom2: string, end: int)
    ensures var r := RepeatMask(rm, chrom1, start, chrom2, end);
      (forall x :: x in r.0 <==> exists g :: g in rm && Spans(g, chrom1, start) && g.name == x) &&
      (forall x :: x in r.1 <==> exists g :: g in rm && Spans(g, chrom2, end) && g.name == x)
  {
    NamesIff(rm, SpansPos(chrom1, start));
    NamesIff(rm, SpansPos(chrom2, end));
  }

  /** The pandas version, annotate_RepeatMask_pd, written by walking the
      table from its head. */
  function RepeatMaskPd(rm: seq<Feature>, chrom1: string, start: int, chrom2: string, end: int): (r: (seq<string>, seq<string>))
    ensures |r.0| <= |rm| && |r.1| <= |rm|
    decreases |rm|
  {
    if rm == [] then ([], [])
    else
      var rest := RepeatMaskPd(rm[1..], chrom1, start, chrom2, end);
      ((if Spans(rm[0], chrom1, start) then [rm[0].name] else []) + rest.0,
       (if Spans(rm[0], chrom2, end) then [rm[0].name] else []) + rest.1)
  }

  /** The pandas and polars versions report the same lists, in the same
      order and with the same duplicates. */
  lemma {:induction false} RepeatMaskPdAgrees(rm: seq<Feature>, chrom1: string, start: int, chrom2: string, end: int)
    ensures RepeatMaskPd(rm, chrom1, start, chrom2, end) == RepeatMask(rm, chrom1, start, chrom2, end)
    decreases |rm|
  {
    if rm != [] {
      RepeatMaskPdAgrees(rm[1..], chrom1, start, chrom2, end);
      NamesCons(rm, SpansPos(chrom1, start));
      NamesCons(rm, SpansPos(chrom2, end));
    }
  }

  /** Names walks the table from its head. */
  lemma NamesCons(rows: seq<Feature>, m: Mask)
    requires rows != []
    ensures Names(rows, m) == (if Holds(m, rows[0]) then [rows[0].name] else []) + Names(rows[1..], m)
  {
    assert rows == [rows[0]] + rows[1..];
    WhereAppend([rows[0]], rows[1..], MaskOf(m));
    WhereSingle(rows[0], MaskOf(m));
    NameColumnAppend(Where([rows[0]], MaskOf(m)), Where(rows[1..], MaskOf(m)));
  }

  lemma NameColumnAppend(a: seq<Feature>, b: seq<Feature>)
    ensures NameColumn(a + b) == NameColumn(a) + NameColumn(b)
  {
  }

  // ---------------------------------------------------------------------
  // ClinGen and the DECIPHER / ISCA overlaps

  /** annotate_clinGen: the features lying strictly inside the call;
      nothing for a zero-length call. */
  function ClinGen(db: seq<Feature>, chrom: string, start: int, end: int): (r: seq<string>)
    ensures start == end ==> r == []
    ensures |r| <= |db|
  {
    if start == end then [] else Names(db, InsideCall(chrom, start, end))
  }

  /** A name is reported exactly when the call has non-zero length and
      some feature carrying it lies strictly inside the call. */
  lemma ClinGenReports(db: seq<Feature>, chrom: string, start: int, end: int)
    ensures forall x :: x in ClinGen(db, chrom, start, end) <==>
      start != end && exists g :: g in db && Inside(g, chrom, start, end) && g.name == x
  {
    NamesIff(db, InsideCall(chrom, start, end));
  }

  /** What annotate_overlap returns: a bare empty list for a zero-length
      call, otherwise the names with the two overlap fractions. */
  datatype OverlapOut =
    | Bare
    | Triple(names: seq<string>, polSeg: seq<real>, polCnv: seq<real>)

  /** A ratio capped at 1. */
  function Capped(q: real): (r: real)
    ensures r <= 1.0
    ensures q < 1.0 ==> r == q
  {
    if q >= 1.0 then 1.0 else q
  }

  /** The part of the feature the call covers. */
  function OverlapLen(g: Feature, start: int, end: int): nat {
    Abs(Max(start, g.start) - Min(end, g.end))
  }

  /** The per-feature fractions, in table order; a zero-length feature
      divides by zero. */
  function Fractions(rows: seq<Feature>, start: int, end: int): (r: Result<(seq<real>, seq<real>)>)
    requires start != end
    ensures r.Err? <==> exists k :: 0 <= k < |rows| && rows[k].end == rows[k].start
    ensures r.Err? ==> r.error == ZeroDivisionError
    ensures r.Ok? ==> |r.value.0| == |rows| && |r.value.1| == |rows|
    ensures r.Ok? ==> forall k :: 0 <= k < |rows| ==>
      r.value.0[k] == Capped(OverlapLen(rows[k], start, end) as real / (rows[k].end - rows[k].start) as real) &&
      r.value.1[k] == Capped(OverlapLen(rows[k], start, end) as real / (end - start) as real)
    decreases |rows|
  {
    if rows == [] then Ok(([], []))
    else
      var init := rows[..|rows| - 1];
      var g := rows[|rows| - 1];
      assert forall k :: 0 <= k < |init| ==> init[k] == rows[k];
      var rest :- Fractions(init, start, end);
      if g.end == g.start then Err(ZeroDivisionError)
      else
        var seg := Capped(OverlapLen(g, start, end) as real / (g.end - g.start) as real);
        var cnv := Capped(OverlapLen(g, start, end) as real / (end - start) as real);
        Ok((rest.0 + [seg], rest.1 + [cnv]))
  }

  /** annotate_overlap: the features overlapping the call strictly, with
      the fraction of the feature and of the call that overlap, each capped
      at 1; a bare empty list for a zero-length call. */
  function AnnotateOverlap(db: seq<Feature>, chrom: string, start: int, end: int): (r: Result<OverlapOut>)
    ensures r == Ok(Bare) <==> start == end
    ensures r.Err? ==> r.error == ZeroDivisionError
    ensures r.Ok? && r.value.Triple? ==>
      |r.value.names| == |r.value.polSeg| == |r.value.polCnv| &&
      (forall k :: 0 <= k < |r.value.polSeg| ==> r.value.polSeg[k] <= 1.0 && r.value.polCnv[k] <= 1.0)
  {
    if start == end then Ok(Bare)
    else
      var m := OverlapsCall(chrom, start, end);
      var splice := Where(db, MaskOf(m));
      var fr :- Fractions(splice, start, end);
      Ok(Triple(Names(db, m), fr.0, fr.1))
  }

  /** annotate_overlap raises exactly when a zero-length feature overlaps
      a call of non-zero length; otherwise it names exactly the features
      the call overlaps strictly. */
  lemma OverlapReports(db: seq<Feature>, chrom: string, start: int, end: int)
    ensures var r := AnnotateOverlap(db, chrom, start, end);
      (r.Err? <==> start != end && exists g :: g in db && Overlaps(g, chrom, start, end) && g.end == g.start) &&
      (r.Ok? && r.value.Triple? ==>
        forall x :: x in r.value.names <==> exists g :: g in db && Overlaps(g, chrom, start, end) && g.name == x)
  {
    if start != end {
      var m := OverlapsCall(chrom, start, end);
      var splice := Where(db, MaskOf(m));
      WhereIff(db, MaskOf(m));
      NamesIff(db, m);
      assert forall k :: 0 <= k < |splice| ==> splice[k] in splice;
      if exists g :: g in db && Overlaps(g, chrom, start, end) && g.end == g.start {
        var g :| g in db && Overlaps(g, chrom, start, end) && g.end == g.start;
        assert g in splice;
        var k :| 0 <= k < |splice| && splice[k] == g;
      }
    }
  }

  /** For well-formed intervals that overlap, both fractions already lie
      in (0, 1], so the cap never changes them. */
  lemma CapNeverFires(g: Feature, start: int, end: int)
    requires g.start < g.end && start < end && Overlaps(g, g.chrom, start, end)
    ensures 0.0 < OverlapLen(g, start, end) as real / (g.end - g.start) as real <= 1.0
    ensures 0.0 < OverlapLen(g, start, end) as real / (end - start) as real <= 1.0
  {
    var o := OverlapLen(g, start, end);
    assert 0 < o <= g.end - g.start && o <= end - start;
    DivideInUnit(o, g.end - g.start);
    DivideInUnit(o, end - start);
  }

  lemma DivideInUnit(a: int, b: int)
    requires 0 < a <= b
    ensures 0.0 < a as real / b as real <= 1.0
  {
    assert a as real <= b as real;
  }
}
