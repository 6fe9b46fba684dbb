/** The blocks of filter clauses the query builders share. Each block is a
    run of `if <value given>: qry += ...` steps in the Python builders; here
    each is a function giving the conditions the block contributes, and a
    method that appends their clauses to the query text step by step. */
module SqlFilters {
  import opened Wrappers
  import opened Text
  import opened Sql

  /** Chromosome and breakpoint selectors (numbers as their printed text). */
  datatype Site = Site(chrom1: Option<string>, start: Option<string>, end: Option<string>)

  /** A slider's (low, high) pair. */
  datatype Range = Range(lo: string, hi: string)

  /** The frequency, project and annotation-count selectors that P2_build,
      CNV_build, build_qry and build_qry_cnv read in the same order. */
  datatype Annotation = Annotation(
    count: Option<Range>, dbFreq: Option<Range>, gnomadFreq: Option<Range>,
    project: seq<string>,
    omimMin: Option<string>, omimMax: Option<string>,
    refSeqMin: Option<string>, refSeqMax: Option<string>,
    omimSym: Option<string>, rsSym: Option<string>)

  /** The four breakpoint-disruption check boxes. */
  datatype Disrupt = Disrupt(geneLeft: bool, geneRight: bool, repeatLeft: bool, repeatRight: bool)

  /** The six dosage-sensitivity check boxes of the CNV page. */
  datatype Dosage = Dosage(
    pHaploCollins: bool, pTriploCollins: bool, pHaploClinGen: bool,
    pTriploClinGen: bool, decipherCnv: bool, iscaCnv: bool)

  // ---------------------------------------------------------------------
  // location

  /** chrom = "<prefix><chrom>", start >= n, end <= n, each when given. */
  function SiteConds(s: Site, chromCol: Column, prefix: string, startCol: Column, endCol: Column): seq<Cond> {
    (if s.chrom1.Some? then [EqualsText(chromCol, prefix + s.chrom1.value)] else [])
    + (if s.start.Some? then [AtLeast(startCol, s.start.value)] else [])
    + (if s.end.Some? then [AtMost(endCol, s.end.value)] else [])
  }

  method AddSite(qry: string, s: Site, chromCol: Column, prefix: string, startCol: Column, endCol: Column)
    returns (q: string)
    ensures q == qry + Clauses(SiteConds(s, chromCol, prefix, startCol, endCol))
  {
    q := qry;
    ghost var cs: seq<Cond> := [];
    assert Clauses(cs) == "";
    if s.chrom1.Some? {
      var c := EqualsText(chromCol, prefix + s.chrom1.value);
      Extend(qry, q, cs, c);
      q := q + And(c);
      cs := cs + [c];
    }
    if s.start.Some? {
      var c := AtLeast(startCol, s.start.value);
      Extend(qry, q, cs, c);
      q := q + And(c);
      cs := cs + [c];
    }
    if s.end.Some? {
      var c := AtMost(endCol, s.end.value);
      Extend(qry, q, cs, c);
      q := q + And(c);
      cs := cs + [c];
    }
    assert cs == SiteConds(s, chromCol, prefix, startCol, endCol);
  }

  /** A selector adds its condition exactly when it is given, and the
      chromosome condition names the given chromosome behind the prefix. */
  lemma SiteMeans(s: Site, chromCol: Column, prefix: string, startCol: Column, endCol: Column, v: string)
    ensures EqualsText(chromCol, prefix + v) in SiteConds(s, chromCol, prefix, startCol, endCol) <==> s.chrom1 == Some(v)
    ensures AtLeast(startCol, v) in SiteConds(s, chromCol, prefix, startCol, endCol) <==> s.start == Some(v)
    ensures AtMost(endCol, v) in SiteConds(s, chromCol, prefix, startCol, endCol) <==> s.end == Some(v)
  {
    var cs := SiteConds(s, chromCol, prefix, startCol, endCol);
    if EqualsText(chromCol, prefix + v) in cs {
      assert prefix + s.chrom1.value == prefix + v;
      assert (prefix + s.chrom1.value)[|prefix|..] == s.chrom1.value;
      assert (prefix + v)[|prefix|..] == v;
    }
  }

  // ---------------------------------------------------------------------
  // single-clause filters

  /** col IN ("v1", ...) when the multiselect is not empty. */
  function AmongConds(col: Column, vs: seq<string>): seq<Cond> {
    if |vs| != 0 then [Among(col, vs)] else []
  }

  /** A one-clause block: the clause when the block is active. */
  lemma OneClause(qry: string, c: Cond)
    ensures qry + Clauses([c]) == qry + And(c)
  {
    ClausesSnoc([], c);
    assert [] + [c] == [c];
  }

  /** One more clause: the text and the condition list grow together. */
  lemma Extend(qry: string, q: string, cs: seq<Cond>, c: Cond)
    requires q == qry + Clauses(cs)
    ensures q + And(c) == qry + Clauses(cs + [c])
  {
    ClausesSnoc(cs, c);
  }

  /** The texts kept for an OR group match its alternatives one by one. */
  predicate Renders(texts: seq<string>, alts: seq<Cond>) {
    |texts| == |alts| && forall i :: 0 <= i < |alts| ==> texts[i] == CondText(alts[i])
  }

  /** The clause ' AND (t1 OR t2 ...)' of an OR group. */
  lemma AndAnyOf(alts: seq<Cond>, texts: seq<string>)
    requires Renders(texts, alts)
    ensures And(AnyOf(alts)) == (" AND (" + Join(texts, " OR ") + ")")
  {
    AnyOfText(alts, texts);
  }

  lemma Grow(texts: seq<string>, alts: seq<Cond>, c: Cond)
    requires Renders(texts, alts)
    ensures Renders(texts + [CondText(c)], alts + [c])
  {
  }

  method AddAmong(qry: string, col: Column, vs: seq<string>) returns (q: string)
    ensures q == qry + Clauses(AmongConds(col, vs))
  {
    q := qry;
    if |vs| != 0 {
      q := q + And(Among(col, vs));
      OneClause(qry, Among(col, vs));
    }
  }

  /** col = "v" when a value is chosen. */
  function TextConds(col: Column, v: Option<string>): seq<Cond> {
    if v.Some? then [EqualsText(col, v.value)] else []
  }

  method AddText(qry: string, col: Column, v: Option<string>) returns (q: string)
    ensures q == qry + Clauses(TextConds(col, v))
  {
    q := qry;
    if v.Some? {
      q := q + And(EqualsText(col, v.value));
      OneClause(qry, EqualsText(col, v.value));
    }
  }

  /** col = n when a number is given. */
  function ValueConds(col: Column, v: Option<string>): seq<Cond> {
    if v.Some? then [Equals(col, v.value)] else []
  }

  method AddValue(qry: string, col: Column, v: Option<string>) returns (q: string)
    ensures q == qry + Clauses(ValueConds(col, v))
  {
    q := qry;
    if v.Some? {
      q := q + And(Equals(col, v.value));
      OneClause(qry, Equals(col, v.value));
    }
  }

  /** col >= min and col <= max, each when given. */
  function SizeConds(col: Column, min: Option<string>, max: Option<string>): seq<Cond> {
    (if min.Some? then [AtLeast(col, min.value)] else [])
    + (if max.Some? then [AtMost(col, max.value)] else [])
  }

  method AddSize(qry: string, col: Column, min: Option<string>, max: Option<string>) returns (q: string)
    ensures q == qry + Clauses(SizeConds(col, min, max))
  {
    q := qry;
    ghost var cs: seq<Cond> := [];
    assert Clauses(cs) == "";
    if min.Some? {
      var c := AtLeast(col, min.value);
      Extend(qry, q, cs, c);
      q := q + And(c);
      cs := cs + [c];
    }
    if max.Some? {
      var c := AtMost(col, max.value);
      Extend(qry, q, cs, c);
      q := q + And(c);
      cs := cs + [c];
    }
    assert cs == SizeConds(col, min, max);
  }

  // ---------------------------------------------------------------------
  // 'True' / 'False' selectors

  /** The selector's value in the query: 1 for 'True', 0 for 'False', and
      no clause for anything else (including no choice). */
  function FlagConds(col: Column, v: Option<string>): seq<Cond> {
    if v == Some("True") then [Equals(col, "1")]
    else if v == Some("False") then [Equals(col, "0")]
    else []
  }

  lemma FlagMeans(col: Column, v: Option<string>)
    ensures FlagConds(col, v) == [Equals(col, "1")] <==> v == Some("True")
    ensures FlagConds(col, v) == [Equals(col, "0")] <==> v == Some("False")
    ensures FlagConds(col, v) == [] <==> v != Some("True") && v != Some("False")
  {
    assert "1"[0] != "0"[0];
  }

  /** SD_Overlap, then is_proband. */
  method AddFlags(qry: string, sdOl: Option<string>, isProband: Option<string>) returns (q: string)
    ensures q == qry + Clauses(FlagConds(SdOverlap, sdOl) + FlagConds(IsProband, isProband))
  {
    q := qry;
    ghost var cs: seq<Cond> := [];
    assert Clauses(cs) == "";
    if sdOl == Some("True") {
      Extend(qry, q, cs, Equals(SdOverlap, "1"));
      q := q + And(Equals(SdOverlap, "1"));
      cs := cs + [Equals(SdOverlap, "1")];
    } else if sdOl == Some("False") {
      Extend(qry, q, cs, Equals(SdOverlap, "0"));
      q := q + And(Equals(SdOverlap, "0"));
      cs := cs + [Equals(SdOverlap, "0")];
    }
    if isProband == Some("True") {
      Extend(qry, q, cs, Equals(IsProband, "1"));
      q := q + And(Equals(IsProband, "1"));
      cs := cs + [Equals(IsProband, "1")];
    } else if isProband == Some("False") {
      Extend(qry, q, cs, Equals(IsProband, "0"));
      q := q + And(Equals(IsProband, "0"));
      cs := cs + [Equals(IsProband, "0")];
    }
    assert cs == FlagConds(SdOverlap, sdOl) + FlagConds(IsProband, isProband);
  }

  // ---------------------------------------------------------------------
  // frequencies, project, annotation counts and symbols

  /** unique_pt_id_count, psuedo_df_freq and gnomAD_AF BETWEEN lo and hi. */
  function RangeConds(a: Annotation): seq<Cond> {
    (if a.count.Some? then [Between(UniquePtIdCount, a.count.value.lo, a.count.value.hi)] else [])
    + (if a.dbFreq.Some? then [Between(PsuedoDfFreq, a.dbFreq.value.lo, a.dbFreq.value.hi)] else [])
    + (if a.gnomadFreq.Some? then [Between(GnomadAf, a.gnomadFreq.value.lo, a.gnomadFreq.value.hi)] else [])
  }

  method AddRanges(qry: string, a: Annotation) returns (q: string)
    ensures q == qry + Clauses(RangeConds(a))
  {
    q := qry;
    ghost var cs: seq<Cond> := [];
    assert Clauses(cs) == "";
    if a.count.Some? {
      var c := Between(UniquePtIdCount, a.count.value.lo, a.count.value.hi);
      Extend(qry, q, cs, c);
      q := q + And(c);
      cs := cs + [c];
    }
    if a.dbFreq.Some? {
      var c := Between(PsuedoDfFreq, a.dbFreq.value.lo, a.dbFreq.value.hi);
      Extend(qry, q, cs, c);
      q := q + And(c);
      cs := cs + [c];
    }
    if a.gnomadFreq.Some? {
      var c := Between(GnomadAf, a.gnomadFreq.value.lo, a.gnomadFreq.value.hi);
      Extend(qry, q, cs, c);
      q := q + And(c);
      cs := cs + [c];
    }
    assert cs == RangeConds(a);
  }

  /** OMIM_Symbol and RefSeq_Symbol LIKE "%s%". */
  function SymbolConds(a: Annotation): seq<Cond> {
    (if a.omimSym.Some? then [Like(OmimSymbol, "%" + a.omimSym.value + "%")] else [])
    + (if a.rsSym.Some? then [Like(RefSeqSymbol, "%" + a.rsSym.value + "%")] else [])
  }

  method AddSymbols(qry: string, a: Annotation) returns (q: string)
    ensures q == qry + Clauses(SymbolConds(a))
  {
    q := qry;
    ghost var cs: seq<Cond> := [];
    assert Clauses(cs) == "";
    if a.omimSym.Some? {
      var c := Like(OmimSymbol, "%" + a.omimSym.value + "%");
      Extend(qry, q, cs, c);
      q := q + And(c);
      cs := cs + [c];
    }
    if a.rsSym.Some? {
      var c := Like(RefSeqSymbol, "%" + a.rsSym.value + "%");
      Extend(qry, q, cs, c);
      q := q + And(c);
      cs := cs + [c];
    }
    assert cs == SymbolConds(a);
  }

  /** The whole block, from count to rs_sym. */
  function AnnotationConds(a: Annotation): seq<Cond> {
    RangeConds(a) + AmongConds(Project, a.project)
    + SizeConds(OmimCount, a.omimMin, a.omimMax) + SizeConds(RefSeqCount, a.refSeqMin, a.refSeqMax)
    + SymbolConds(a)
  }

  /** Two blocks one after the other. */
  lemma Chain(qry: string, q1: string, q2: string, a: seq<Cond>, b: seq<Cond>)
    requires q1 == qry + Clauses(a) && q2 == q1 + Clauses(b)
    ensures q2 == qry + Clauses(a + b)
  {
    ClausesAppend(a, b);
  }

  method AddAnnotation(qry: string, a: Annotation) returns (q: string)
    ensures q == qry + Clauses(AnnotationConds(a))
  {
    var q1 := AddRanges(qry, a);
    var q2 := AddAmong(q1, Project, a.project);
    Chain(qry, q1, q2, RangeConds(a), AmongConds(Project, a.project));
    var q3 := AddSize(q2, OmimCount, a.omimMin, a.omimMax);
    Chain(qry, q2, q3, RangeConds(a) + AmongConds(Project, a.project),
      SizeConds(OmimCount, a.omimMin, a.omimMax));
    var q4 := AddSize(q3, RefSeqCount, a.refSeqMin, a.refSeqMax);
    Chain(qry, q3, q4, RangeConds(a) + AmongConds(Project, a.project) + SizeConds(OmimCount, a.omimMin, a.omimMax),
      SizeConds(RefSeqCount, a.refSeqMin, a.refSeqMax));
    q := AddSymbols(q4, a);
    Chain(qry, q4, q, RangeConds(a) + AmongConds(Project, a.project) + SizeConds(OmimCount, a.omimMin, a.omimMax)
      + SizeConds(RefSeqCount, a.refSeqMin, a.refSeqMax), SymbolConds(a));
  }

  // ---------------------------------------------------------------------
  // genotype

  /** Homozygous: genotype LIKE "1/1"; Heterozygous: LIKE "0/1"; anything
      else: no clause. */
  function GenotypeConds(g: Option<string>): seq<Cond> {
    if g == Some("Homozygous") then [Like(Genotype, "1/1")]
    else if g == Some("Heterozygous") then [Like(Genotype, "0/1")]
    else []
  }

  method AddGenotype(qry: string, g: Option<string>) returns (q: string)
    ensures q == qry + Clauses(GenotypeConds(g))
  {
    q := qry;
    if g == Some("Homozygous") {
      q := q + And(Like(Genotype, "1/1"));
      OneClause(qry, Like(Genotype, "1/1"));
    } else if g == Some("Heterozygous") {
      q := q + And(Like(Genotype, "0/1"));
      OneClause(qry, Like(Genotype, "0/1"));
    }
  }

  // ---------------------------------------------------------------------
  // breakpoint disruption and dosage sensitivity

  /** The list after one `if box: list.append(c)` step. */
  function Tick(cs: seq<Cond>, box: bool, c: Cond): seq<Cond> {
    if box then cs + [c] else cs
  }

  /** One IS NOT NULL condition per ticked box, in the boxes' order. */
  function DisruptConds(d: Disrupt): seq<Cond> {
    var cs1 := Tick([], d.geneLeft, NotNull(RefSeqDisruptLeft));
    var cs2 := Tick(cs1, d.geneRight, NotNull(RefSeqDisruptRight));
    var cs3 := Tick(cs2, d.repeatLeft, NotNull(RepeatMaskDisruptLeft));
    Tick(cs3, d.repeatRight, NotNull(RepeatMaskDisruptRight))
  }

  /** P2_build, build_qry and build_qry_cnv: each ticked box is its own
      clause, so all ticked conditions must hold. */
  method AddDisrupt(qry: string, d: Disrupt) returns (q: string)
    ensures q == qry + Clauses(DisruptConds(d))
  {
    q := qry;
    ghost var cs: seq<Cond> := [];
    assert Clauses(cs) == "";
    if d.geneLeft {
      Extend(qry, q, cs, NotNull(RefSeqDisruptLeft));
      q := q + And(NotNull(RefSeqDisruptLeft));
    }
    cs := Tick(cs, d.geneLeft, NotNull(RefSeqDisruptLeft));
    assert q == qry + Clauses(cs);
    if d.geneRight {
      Extend(qry, q, cs, NotNull(RefSeqDisruptRight));
      q := q + And(NotNull(RefSeqDisruptRight));
    }
    cs := Tick(cs, d.geneRight, NotNull(RefSeqDisruptRight));
    assert q == qry + Clauses(cs);
    if d.repeatLeft {
      Extend(qry, q, cs, NotNull(RepeatMaskDisruptLeft));
      q := q + And(NotNull(RepeatMaskDisruptLeft));
    }
    cs := Tick(cs, d.repeatLeft, NotNull(RepeatMaskDisruptLeft));
    assert q == qry + Clauses(cs);
    if d.repeatRight {
      Extend(qry, q, cs, NotNull(RepeatMaskDisruptRight));
      q := q + And(NotNull(RepeatMaskDisruptRight));
    }
    cs := Tick(cs, d.repeatRight, NotNull(RepeatMaskDisruptRight));
  }

  /** CNV_build: when any box is ticked, a single clause OR-joins the ticked
      conditions, so any one of them suffices; otherwise no clause. */
  function OneOf(alts: seq<Cond>): seq<Cond> {
    if |alts| != 0 then [AnyOf(alts)] else []
  }

  function AnyDisrupt(d: Disrupt): bool {
    d.geneLeft || d.geneRight || d.repeatLeft || d.repeatRight
  }

  method AddDisruptGroup(qry: string, d: Disrupt) returns (q: string)
    ensures q == qry + Clauses(OneOf(DisruptConds(d)))
  {
    q := qry;
    if AnyDisrupt(d) {
      var tmp: seq<string> := [];
      ghost var alts: seq<Cond> := [];
      if d.geneLeft {
        Grow(tmp, alts, NotNull(RefSeqDisruptLeft));
        tmp := tmp + [CondText(NotNull(RefSeqDisruptLeft))];
      }
      alts := Tick(alts, d.geneLeft, NotNull(RefSeqDisruptLeft));
      assert Renders(tmp, alts);
      if d.geneRight {
        Grow(tmp, alts, NotNull(RefSeqDisruptRight));
        tmp := tmp + [CondText(NotNull(RefSeqDisruptRight))];
      }
      alts := Tick(alts, d.geneRight, NotNull(RefSeqDisruptRight));
      assert Renders(tmp, alts);
      if d.repeatLeft {
        Grow(tmp, alts, NotNull(RepeatMaskDisruptLeft));
        tmp := tmp + [CondText(NotNull(RepeatMaskDisruptLeft))];
      }
      alts := Tick(alts, d.repeatLeft, NotNull(RepeatMaskDisruptLeft));
      assert Renders(tmp, alts);
      if d.repeatRight {
        Grow(tmp, alts, NotNull(RepeatMaskDisruptRight));
        tmp := tmp + [CondText(NotNull(RepeatMaskDisruptRight))];
      }
      alts := Tick(alts, d.repeatRight, NotNull(RepeatMaskDisruptRight));
      assert Renders(tmp, alts);
      assert |alts| != 0;
      AndAnyOf(alts, tmp);
      OneClause(qry, AnyOf(alts));
      q := q + (" AND (" + Join(tmp, " OR ") + ")");
    }
  }

  /** One IS NOT NULL condition per ticked dosage box, in the boxes' order. */
  function DosageConds(s: Dosage): seq<Cond> {
    var cs1 := Tick([], s.pHaploCollins, NotNull(PHaploCollins));
    var cs2 := Tick(cs1, s.pTriploCollins, NotNull(PTriploCollins));
    var cs3 := Tick(cs2, s.pHaploClinGen, NotNull(PHaploClinGen));
    var cs4 := Tick(cs3, s.pTriploClinGen, NotNull(PTriploClinGen));
    var cs5 := Tick(cs4, s.decipherCnv, NotNull(DecipherCnvSyndromes));
    Tick(cs5, s.iscaCnv, NotNull(Isca))
  }

  function AnyDosage(s: Dosage): bool {
    s.pHaploCollins || s.pTriploCollins || s.pHaploClinGen || s.pTriploClinGen || s.decipherCnv || s.iscaCnv
  }

  method AddDosageGroup(qry: string, s: Dosage) returns (q: string)
    ensures q == qry + Clauses(OneOf(DosageConds(s)))
  {
    q := qry;
    if AnyDosage(s) {
      var tmp: seq<string> := [];
      ghost var alts: seq<Cond> := [];
      if s.pHaploCollins {
        Grow(tmp, alts, NotNull(PHaploCollins));
        tmp := tmp + [CondText(NotNull(PHaploCollins))];
      }
      alts := Tick(alts, s.pHaploCollins, NotNull(PHaploCollins));
      assert Renders(tmp, alts);
      if s.pTriploCollins {
        Grow(tmp, alts, NotNull(PTriploCollins));
        tmp := tmp + [CondText(NotNull(PTriploCollins))];
      }
      alts := Tick(alts, s.pTriploCollins, NotNull(PTriploCollins));
      assert Renders(tmp, alts);
      if s.pHaploClinGen {
        Grow(tmp, alts, NotNull(PHaploClinGen));
        tmp := tmp + [CondText(NotNull(PHaploClinGen))];
      }
      alts := Tick(alts, s.pHaploClinGen, NotNull(PHaploClinGen));
      assert Renders(tmp, alts);
      if s.pTriploClinGen {
        Grow(tmp, alts, NotNull(PTriploClinGen));
        tmp := tmp + [CondText(NotNull(PTriploClinGen))];
      }
      alts := Tick(alts, s.pTriploClinGen, NotNull(PTriploClinGen));
      assert Renders(tmp, alts);
      if s.decipherCnv {
        Grow(tmp, alts, NotNull(DecipherCnvSyndromes));
        tmp := tmp + [CondText(NotNull(DecipherCnvSyndromes))];
      }
      alts := Tick(alts, s.decipherCnv, NotNull(DecipherCnvSyndromes));
      assert Renders(tmp, alts);
      if s.iscaCnv {
        Grow(tmp, alts, NotNull(Isca));
        tmp := tmp + [CondText(NotNull(Isca))];
      }
      alts := Tick(alts, s.iscaCnv, NotNull(Isca));
      assert Renders(tmp, alts);
      assert |alts| != 0;
      AndAnyOf(alts, tmp);
      OneClause(qry, AnyOf(alts));
      q := q + (" AND (" + Join(tmp, " OR ") + ")");
    }
  }

  /** 1 for a ticked box, 0 otherwise. */
  function Box(b: bool): nat {
    if b then 1 else 0
  }

  /** A tick step adds one IS NOT NULL condition exactly when its box is
      ticked. */
  lemma TickCount(cs: seq<Cond>, n: nat, box: bool, c: Cond)
    requires |cs| == n && forall x :: x in cs ==> x.NotNull?
    requires c.NotNull?
    ensures |Tick(cs, box, c)| == n + Box(box)
    ensures forall x :: x in Tick(cs, box, c) ==> x.NotNull?
  {
  }

  /** The breakpoint OR group exists exactly when a box is ticked, and then
      it holds one IS NOT NULL alternative per ticked box. */
  lemma DisruptGroupMeans(d: Disrupt)
    ensures |OneOf(DisruptConds(d))| == (if AnyDisrupt(d) then 1 else 0)
    ensures |DisruptConds(d)| == Box(d.geneLeft) + Box(d.geneRight) + Box(d.repeatLeft) + Box(d.repeatRight)
    ensures forall c :: c in DisruptConds(d) ==> c.NotNull?
  {
    var cs1 := Tick([], d.geneLeft, NotNull(RefSeqDisruptLeft));
    var cs2 := Tick(cs1, d.geneRight, NotNull(RefSeqDisruptRight));
    var cs3 := Tick(cs2, d.repeatLeft, NotNull(RepeatMaskDisruptLeft));
    TickCount([], 0, d.geneLeft, NotNull(RefSeqDisruptLeft));
    TickCount(cs1, |cs1|, d.geneRight, NotNull(RefSeqDisruptRight));
    TickCount(cs2, |cs2|, d.repeatLeft, NotNull(RepeatMaskDisruptLeft));
    TickCount(cs3, |cs3|, d.repeatRight, NotNull(RepeatMaskDisruptRight));
  }

  /** The dosage OR group exists exactly when a box is ticked, and then it
      holds one IS NOT NULL alternative per ticked box. */
  lemma DosageGroupMeans(s: Dosage)
    ensures |OneOf(DosageConds(s))| == (if AnyDosage(s) then 1 else 0)
    ensures |DosageConds(s)| == Box(s.pHaploCollins) + Box(s.pTriploCollins) + Box(s.pHaploClinGen)
                              + Box(s.pTriploClinGen) + Box(s.decipherCnv) + Box(s.iscaCnv)
    ensures forall c :: c in DosageConds(s) ==> c.NotNull?
  {
    var cs1 := Tick([], s.pHaploCollins, NotNull(PHaploCollins));
    var cs2 := Tick(cs1, s.pTriploCollins, NotNull(PTriploCollins));
    var cs3 := Tick(cs2, s.pHaploClinGen, NotNull(PHaploClinGen));
    var cs4 := Tick(cs3, s.pTriploClinGen, NotNull(PTriploClinGen));
    var cs5 := Tick(cs4, s.decipherCnv, NotNull(DecipherCnvSyndromes));
    TickCount([], 0, s.pHaploCollins, NotNull(PHaploCollins));
    TickCount(cs1, |cs1|, s.pTriploCollins, NotNull(PTriploCollins));
    TickCount(cs2, |cs2|, s.pHaploClinGen, NotNull(PHaploClinGen));
    TickCount(cs3, |cs3|, s.pTriploClinGen, NotNull(PTriploClinGen));
    TickCount(cs4, |cs4|, s.decipherCnv, NotNull(DecipherCnvSyndromes));
    TickCount(cs5, |cs5|, s.iscaCnv, NotNull(Isca));
  }
}
