/** The five query builders: CGR_build (query/CGR_filters.py), P2_build
    (query/P2_filters.py), CNV_build (query/CNV_filters.py), and build_qry
    and build_qry_cnv (app.py). Each is a method growing the query text
    block by block, proved equal to Query(head, conditions, num_rows) for a
    condition list given as a function of the filter record. */
module QueryBuild {
  import opened Wrappers
  import opened Text
  import opened Sql
  import opened SqlFilters
  import opened GeneClause

  /** The selectors of the CGR page. Numbers are their printed text. */
  datatype CgrFilter = CgrFilter(
    site: Site, level: seq<string>, svType: Option<string>,
    lenMin: Option<string>, lenMax: Option<string>,
    sdOl: Option<string>, isProband: Option<string>,
    project: seq<string>, family: seq<string>, ptId: seq<string>,
    clusterId: Option<string>, numRows: Rows)

  /** The selectors of the SV (P2) page; build_qry reads all but the gene
      and HPO lists. */
  datatype SvFilter = SvFilter(
    site: Site, svType: seq<string>,
    svLenMin: Option<string>, svLenMax: Option<string>,
    sdOl: Option<string>, isProband: Option<string>,
    annot: Annotation, rsList: string, hpoList: string,
    family: seq<string>, ptId: seq<string>, genotype: Option<string>,
    clusterId: Option<string>, disrupt: Disrupt, numRows: Rows)

  /** The selectors of the CNV page; build_qry_cnv reads all but the gene
      and HPO lists, and of the dosage boxes only the two Collins ones. */
  datatype CnvFilter = CnvFilter(
    site: Site, level: seq<string>, cnvType: Option<string>,
    lenMin: Option<string>, lenMax: Option<string>,
    sdOl: Option<string>, isProband: Option<string>,
    annot: Annotation, rsList: string, hpoList: string,
    family: seq<string>, ptId: seq<string>,
    clusterId: Option<string>, disrupt: Disrupt, dosage: Dosage, numRows: Rows)

  /** The head of CGR_build and CNV_build: the table, aliased c, joined
      with the patient metadata. */
  function CJoinHead(table: string): string {
    "SELECT c.*, m.sex, m.phenotype FROM " + table + " c JOIN meta m ON c.pt_id = m.pt_id WHERE 1=1"
  }

  /** The head of P2_build: the table aliased p. */
  function PJoinHead(table: string): string {
    "SELECT p.*, m.sex, m.phenotype FROM " + table + " p JOIN meta m ON p.pt_id = m.pt_id WHERE 1=1"
  }

  const P2Head: string := "SELECT * FROM P2_DB WHERE 1=1"
  const CnvHead: string := "SELECT * FROM CNV_hg19 WHERE 1=1"

  /** The CGR candidate rule: a CNV end within 1500 bp of an SV, and not
      already matched to that SV. */
  const Candidate: Cond := Raw("(left_dist <= 1500 OR right_dist <=1500) AND match_CNV_SV != 1")

  lemma CandidateClause()
    ensures And(Candidate) == " AND " + "(left_dist <= 1500 OR right_dist <=1500) AND match_CNV_SV != 1"
  {
  }

  /** Two Collins dosage boxes of build_qry_cnv, each its own clause. */
  function CollinsConds(s: Dosage): seq<Cond> {
    Tick(Tick([], s.pHaploCollins, NotNull(PHaploCollins)), s.pTriploCollins, NotNull(PTriploCollins))
  }

  method AddCollins(qry: string, s: Dosage) returns (q: string)
    ensures q == qry + Clauses(CollinsConds(s))
  {
    q := qry;
    ghost var cs: seq<Cond> := [];
    assert Clauses(cs) == "";
    if s.pHaploCollins {
      Extend(qry, q, cs, NotNull(PHaploCollins));
      q := q + And(NotNull(PHaploCollins));
    }
    cs := Tick(cs, s.pHaploCollins, NotNull(PHaploCollins));
    assert q == qry + Clauses(cs);
    if s.pTriploCollins {
      Extend(qry, q, cs, NotNull(PTriploCollins));
      q := q + And(NotNull(PTriploCollins));
    }
    cs := Tick(cs, s.pTriploCollins, NotNull(PTriploCollins));
  }

  /** ' LIMIT n' closes the query built so far. */
  lemma Close(head: string, q: string, cs: seq<Cond>, rows: Rows, n: nat)
    requires q == head + Clauses(cs) && n == LimitValue(rows)
    ensures q + (" LIMIT " + NatToString(n)) == Query(head, cs, rows)
  {
  }

  // ---------------------------------------------------------------------
  // CGR_build

  function CgrConds(f: CgrFilter): seq<Cond> {
    SiteConds(f.site, Chr, "chr", Start, End)
    + AmongConds(CgrLvl, f.level)
    + TextConds(Type, f.svType)
    + SizeConds(Len, f.lenMin, f.lenMax)
    + (FlagConds(SdOverlap, f.sdOl) + FlagConds(IsProband, f.isProband))
    + AmongConds(Project, f.project)
    + AmongConds(Family, f.family)
    + AmongConds(MetaPtId, f.ptId)
    + ValueConds(Cluster, f.clusterId)
    + [Candidate]
  }

  function CgrQuery(f: CgrFilter, table: string): string {
    Query(CJoinHead(table), CgrConds(f), f.numRows)
  }

  method CgrBuild(f: CgrFilter, table: string) returns (qry: string)
    ensures qry == CgrQuery(f, table)
  {
    var numRows: nat := if f.numRows.All? then AllRows else f.numRows.n;
    var head := CJoinHead(table);
    qry := head;
    var q := AddSite(qry, f.site, Chr, "chr", Start, End);
    ghost var cs := SiteConds(f.site, Chr, "chr", Start, End);
    qry := q;
    q := AddAmong(qry, CgrLvl, f.level);
    Chain(head, qry, q, cs, AmongConds(CgrLvl, f.level));
    cs, qry := cs + AmongConds(CgrLvl, f.level), q;
    q := AddText(qry, Type, f.svType);
    Chain(head, qry, q, cs, TextConds(Type, f.svType));
    cs, qry := cs + TextConds(Type, f.svType), q;
    q := AddSize(qry, Len, f.lenMin, f.lenMax);
    Chain(head, qry, q, cs, SizeConds(Len, f.lenMin, f.lenMax));
    cs, qry := cs + SizeConds(Len, f.lenMin, f.lenMax), q;
    q := AddFlags(qry, f.sdOl, f.isProband);
    Chain(head, qry, q, cs, FlagConds(SdOverlap, f.sdOl) + FlagConds(IsProband, f.isProband));
    cs, qry := cs + (FlagConds(SdOverlap, f.sdOl) + FlagConds(IsProband, f.isProband)), q;
    q := AddAmong(qry, Project, f.project);
    Chain(head, qry, q, cs, AmongConds(Project, f.project));
    cs, qry := cs + AmongConds(Project, f.project), q;
    q := AddAmong(qry, Family, f.family);
    Chain(head, qry, q, cs, AmongConds(Family, f.family));
    cs, qry := cs + AmongConds(Family, f.family), q;
    q := AddAmong(qry, MetaPtId, f.ptId);
    Chain(head, qry, q, cs, AmongConds(MetaPtId, f.ptId));
    cs, qry := cs + AmongConds(MetaPtId, f.ptId), q;
    q := AddValue(qry, Cluster, f.clusterId);
    Chain(head, qry, q, cs, ValueConds(Cluster, f.clusterId));
    cs, qry := cs + ValueConds(Cluster, f.clusterId), q;
    Extend(head, qry, cs, Candidate);
    CandidateClause();
    qry := qry + (" AND " + "(left_dist <= 1500 OR right_dist <=1500) AND match_CNV_SV != 1");
    cs := cs + [Candidate];
    assert cs == CgrConds(f);
    Close(head, qry, cs, f.numRows, numRows);
    qry := qry + (" LIMIT " + NatToString(numRows));
  }

  // ---------------------------------------------------------------------
  // P2_build and build_qry

  /** P2_build's conditions, for the gene list `rs` left by the HPO step. */
  function P2Conds(f: SvFilter, rs: string): seq<Cond> {
    SiteConds(f.site, Chrom1, "", Pos1, Pos2)
    + AmongConds(SvType, f.svType)
    + SizeConds(SvLen, f.svLenMin, f.svLenMax)
    + (FlagConds(SdOverlap, f.sdOl) + FlagConds(IsProband, f.isProband))
    + AnnotationConds(f.annot)
    + GeneConds(rs)
    + AmongConds(Family, f.family)
    + AmongConds(MetaPtId, f.ptId)
    + GenotypeConds(f.genotype)
    + ValueConds(Cluster, f.clusterId)
    + DisruptConds(f.disrupt)
  }

  function P2Query(f: SvFilter, table: string, pheno2gene: string -> seq<string>): string {
    Query(PJoinHead(table), P2Conds(f, GeneSource(f.hpoList, f.rsList, pheno2gene)), f.numRows)
  }

  method P2Build(f: SvFilter, table: string, pheno2gene: string -> seq<string>) returns (qry: string)
    ensures qry == P2Query(f, table, pheno2gene)
  {
    var numRows: nat := if f.numRows.All? then AllRows else f.numRows.n;
    var rs := ExpandHpo(f.hpoList, f.rsList, pheno2gene);
    var head := PJoinHead(table);
    qry := head;
    var q := AddSite(qry, f.site, Chrom1, "", Pos1, Pos2);
    ghost var cs := SiteConds(f.site, Chrom1, "", Pos1, Pos2);
    qry := q;
    q := AddAmong(qry, SvType, f.svType);
    Chain(head, qry, q, cs, AmongConds(SvType, f.svType));
    cs, qry := cs + AmongConds(SvType, f.svType), q;
    q := AddSize(qry, SvLen, f.svLenMin, f.svLenMax);
    Chain(head, qry, q, cs, SizeConds(SvLen, f.svLenMin, f.svLenMax));
    cs, qry := cs + SizeConds(SvLen, f.svLenMin, f.svLenMax), q;
    q := AddFlags(qry, f.sdOl, f.isProband);
    Chain(head, qry, q, cs, FlagConds(SdOverlap, f.sdOl) + FlagConds(IsProband, f.isProband));
    cs, qry := cs + (FlagConds(SdOverlap, f.sdOl) + FlagConds(IsProband, f.isProband)), q;
    q := AddAnnotation(qry, f.annot);
    Chain(head, qry, q, cs, AnnotationConds(f.annot));
    cs, qry := cs + AnnotationConds(f.annot), q;
    q := AddGenes(qry, rs);
    Chain(head, qry, q, cs, GeneConds(rs));
    cs, qry := cs + GeneConds(rs), q;
    q := AddAmong(qry, Family, f.family);
    Chain(head, qry, q, cs, AmongConds(Family, f.family));
    cs, qry := cs + AmongConds(Family, f.family), q;
    q := AddAmong(qry, MetaPtId, f.ptId);
    Chain(head, qry, q, cs, AmongConds(MetaPtId, f.ptId));
    cs, qry := cs + AmongConds(MetaPtId, f.ptId), q;
    q := AddGenotype(qry, f.genotype);
    Chain(head, qry, q, cs, GenotypeConds(f.genotype));
    cs, qry := cs + GenotypeConds(f.genotype), q;
    q := AddValue(qry, Cluster, f.clusterId);
    Chain(head, qry, q, cs, ValueConds(Cluster, f.clusterId));
    cs, qry := cs + ValueConds(Cluster, f.clusterId), q;
    q := AddDisrupt(qry, f.disrupt);
    Chain(head, qry, q, cs, DisruptConds(f.disrupt));
    cs, qry := cs + DisruptConds(f.disrupt), q;
    assert cs == P2Conds(f, rs);
    Close(head, qry, cs, f.numRows, numRows);
    qry := qry + (" LIMIT " + NatToString(numRows));
  }

  /** build_qry's conditions: P2_build's without the gene list, with the
      patient filter on pt_id. */
  function AppSvConds(f: SvFilter): seq<Cond> {
    SiteConds(f.site, Chrom1, "", Pos1, Pos2)
    + AmongConds(SvType, f.svType)
    + SizeConds(SvLen, f.svLenMin, f.svLenMax)
    + (FlagConds(SdOverlap, f.sdOl) + FlagConds(IsProband, f.isProband))
    + AnnotationConds(f.annot)
    + AmongConds(Family, f.family)
    + AmongConds(PtId, f.ptId)
    + GenotypeConds(f.genotype)
    + ValueConds(Cluster, f.clusterId)
    + DisruptConds(f.disrupt)
  }

  function AppSvQuery(f: SvFilter): string {
    Query(P2Head, AppSvConds(f), f.numRows)
  }

  method BuildQry(f: SvFilter) returns (qry: string)
    ensures qry == AppSvQuery(f)
  {
    var numRows: nat := if f.numRows.All? then AllRows else f.numRows.n;
    var head := P2Head;
    qry := head;
    var q := AddSite(qry, f.site, Chrom1, "", Pos1, Pos2);
    ghost var cs := SiteConds(f.site, Chrom1, "", Pos1, Pos2);
    qry := q;
    q := AddAmong(qry, SvType, f.svType);
    Chain(head, qry, q, cs, AmongConds(SvType, f.svType));
    cs, qry := cs + AmongConds(SvType, f.svType), q;
    q := AddSize(qry, SvLen, f.svLenMin, f.svLenMax);
    Chain(head, qry, q, cs, SizeConds(SvLen, f.svLenMin, f.svLenMax));
    cs, qry := cs + SizeConds(SvLen, f.svLenMin, f.svLenMax), q;
    q := AddFlags(qry, f.sdOl, f.isProband);
    Chain(head, qry, q, cs, FlagConds(SdOverlap, f.sdOl) + FlagConds(IsProband, f.isProband));
    cs, qry := cs + (FlagConds(SdOverlap, f.sdOl) + FlagConds(IsProband, f.isProband)), q;
    q := AddAnnotation(qry, f.annot);
    Chain(head, qry, q, cs, AnnotationConds(f.annot));
    cs, qry := cs + AnnotationConds(f.annot), q;
    q := AddAmong(qry, Family, f.family);
    Chain(head, qry, q, cs, AmongConds(Family, f.family));
    cs, qry := cs + AmongConds(Family, f.family), q;
    q := AddAmong(qry, PtId, f.ptId);
    Chain(head, qry, q, cs, AmongConds(PtId, f.ptId));
    cs, qry := cs + AmongConds(PtId, f.ptId), q;
    q := AddGenotype(qry, f.genotype);
    Chain(head, qry, q, cs, GenotypeConds(f.genotype));
    cs, qry := cs + GenotypeConds(f.genotype), q;
    q := AddValue(qry, Cluster, f.clusterId);
    Chain(head, qry, q, cs, ValueConds(Cluster, f.clusterId));
    cs, qry := cs + ValueConds(Cluster, f.clusterId), q;
    q := AddDisrupt(qry, f.disrupt);
    Chain(head, qry, q, cs, DisruptConds(f.disrupt));
    cs, qry := cs + DisruptConds(f.disrupt), q;
    assert cs == AppSvConds(f);
    Close(head, qry, cs, f.numRows, numRows);
    qry := qry + (" LIMIT " + NatToString(numRows));
  }

  // ---------------------------------------------------------------------
  // CNV_build and build_qry_cnv

  function CnvConds(f: CnvFilter, rs: string): seq<Cond> {
    SiteConds(f.site, Chr, "chr", Start, End)
    + AmongConds(CnvLvl, f.level)
    + TextConds(Type, f.cnvType)
    + SizeConds(Len, f.lenMin, f.lenMax)
    + (FlagConds(SdOverlap, f.sdOl) + FlagConds(IsProband, f.isProband))
    + AnnotationConds(f.annot)
    + GeneConds(rs)
    + AmongConds(Family, f.family)
    + AmongConds(MetaPtId, f.ptId)
    + ValueConds(Cluster, f.clusterId)
    + OneOf(DisruptConds(f.disrupt))
    + OneOf(DosageConds(f.dosage))
  }

  function CnvQuery(f: CnvFilter, table: string, pheno2gene: string -> seq<string>): string {
    Query(CJoinHead(table), CnvConds(f, GeneSource(f.hpoList, f.rsList, pheno2gene)), f.numRows)
  }

  method CnvBuild(f: CnvFilter, table: string, pheno2gene: string -> seq<string>) returns (qry: string)
    ensures qry == CnvQuery(f, table, pheno2gene)
  {
    var numRows: nat := if f.numRows.All? then AllRows else f.numRows.n;
    var rs := ExpandHpo(f.hpoList, f.rsList, pheno2gene);
    var head := CJoinHead(table);
    qry := head;
    var q := AddSite(qry, f.site, Chr, "chr", Start, End);
    ghost var cs := SiteConds(f.site, Chr, "chr", Start, End);
    qry := q;
    q := AddAmong(qry, CnvLvl, f.level);
    Chain(head, qry, q, cs, AmongConds(CnvLvl, f.level));
    cs, qry := cs + AmongConds(CnvLvl, f.level), q;
    q := AddText(qry, Type, f.cnvType);
    Chain(head, qry, q, cs, TextConds(Type, f.cnvType));
    cs, qry := cs + TextConds(Type, f.cnvType), q;
    q := AddSize(qry, Len, f.lenMin, f.lenMax);
    Chain(head, qry, q, cs, SizeConds(Len, f.lenMin, f.lenMax));
    cs, qry := cs + SizeConds(Len, f.lenMin, f.lenMax), q;
    q := AddFlags(qry, f.sdOl, f.isProband);
    Chain(head, qry, q, cs, FlagConds(SdOverlap, f.sdOl) + FlagConds(IsProband, f.isProband));
    cs, qry := cs + (FlagConds(SdOverlap, f.sdOl) + FlagConds(IsProband, f.isProband)), q;
    q := AddAnnotation(qry, f.annot);
    Chain(head, qry, q, cs, AnnotationConds(f.annot));
    cs, qry := cs + AnnotationConds(f.annot), q;
    q := AddGenes(qry, rs);
    Chain(head, qry, q, cs, GeneConds(rs));
    cs, qry := cs + GeneConds(rs), q;
    q := AddAmong(qry, Family, f.family);
    Chain(head, qry, q, cs, AmongConds(Family, f.family));
    cs, qry := cs + AmongConds(Family, f.family), q;
    q := AddAmong(qry, MetaPtId, f.ptId);
    Chain(head, qry, q, cs, AmongConds(MetaPtId, f.ptId));
    cs, qry := cs + AmongConds(MetaPtId, f.ptId), q;
    q := AddValue(qry, Cluster, f.clusterId);
    Chain(head, qry, q, cs, ValueConds(Cluster, f.clusterId));
    cs, qry := cs + ValueConds(Cluster, f.clusterId), q;
    q := AddDisruptGroup(qry, f.disrupt);
    Chain(head, qry, q, cs, OneOf(DisruptConds(f.disrupt)));
    cs, qry := cs + OneOf(DisruptConds(f.disrupt)), q;
    q := AddDosageGroup(qry, f.dosage);
    Chain(head, qry, q, cs, OneOf(DosageConds(f.dosage)));
    cs, qry := cs + OneOf(DosageConds(f.dosage)), q;
    assert cs == CnvConds(f, rs);
    Close(head, qry, cs, f.numRows, numRows);
    qry := qry + (" LIMIT " + NatToString(numRows));
  }

  /** build_qry_cnv's conditions: breakpoints on pos1/pos2, each ticked
      disruption box its own clause, the two Collins boxes, no gene list. */
  function AppCnvConds(f: CnvFilter): seq<Cond> {
    SiteConds(f.site, Chr, "chr", Pos1, Pos2)
    + AmongConds(CnvLvl, f.level)
    + TextConds(Type, f.cnvType)
    + SizeConds(Len, f.lenMin, f.lenMax)
    + (FlagConds(SdOverlap, f.sdOl) + FlagConds(IsProband, f.isProband))
    + AnnotationConds(f.annot)
    + AmongConds(Family, f.family)
    + AmongConds(PtId, f.ptId)
    + ValueConds(Cluster, f.clusterId)
    + DisruptConds(f.disrupt)
    + CollinsConds(f.dosage)
  }

  function AppCnvQuery(f: CnvFilter): string {
    Query(CnvHead, AppCnvConds(f), f.numRows)
  }

  method BuildQryCnv(f: CnvFilter) returns (qry: string)
    ensures qry == AppCnvQuery(f)
  {
    var numRows: nat := if f.numRows.All? then AllRows else f.numRows.n;
    var head := CnvHead;
    qry := head;
    var q := AddSite(qry, f.site, Chr, "chr", Pos1, Pos2);
    ghost var cs := SiteConds(f.site, Chr, "chr", Pos1, Pos2);
    qry := q;
    q := AddAmong(qry, CnvLvl, f.level);
    Chain(head, qry, q, cs, AmongConds(CnvLvl, f.level));
    cs, qry := cs + AmongConds(CnvLvl, f.level), q;
    q := AddText(qry, Type, f.cnvType);
    Chain(head, qry, q, cs, TextConds(Type, f.cnvType));
    cs, qry := cs + TextConds(Type, f.cnvType), q;
    q := AddSize(qry, Len, f.lenMin, f.lenMax);
    Chain(head, qry, q, cs, SizeConds(Len, f.lenMin, f.lenMax));
    cs, qry := cs + SizeConds(Len, f.lenMin, f.lenMax), q;
    q := AddFlags(qry, f.sdOl, f.isProband);
    Chain(head, qry, q, cs, FlagConds(SdOverlap, f.sdOl) + FlagConds(IsProband, f.isProband));
    cs, qry := cs + (FlagConds(SdOverlap, f.sdOl) + FlagConds(IsProband, f.isProband)), q;
    q := AddAnnotation(qry, f.annot);
    Chain(head, qry, q, cs, AnnotationConds(f.annot));
    cs, qry := cs + AnnotationConds(f.annot), q;
    q := AddAmong(qry, Family, f.family);
    Chain(head, qry, q, cs, AmongConds(Family, f.family));
    cs, qry := cs + AmongConds(Family, f.family), q;
    q := AddAmong(qry, PtId, f.ptId);
    Chain(head, qry, q, cs, AmongConds(PtId, f.ptId));
    cs, qry := cs + AmongConds(PtId, f.ptId), q;
    q := AddValue(qry, Cluster, f.clusterId);
    Chain(head, qry, q, cs, ValueConds(Cluster, f.clusterId));
    cs, qry := cs + ValueConds(Cluster, f.clusterId), q;
    q := AddDisrupt(qry, f.disrupt);
    Chain(head, qry, q, cs, DisruptConds(f.disrupt));
    cs, qry := cs + DisruptConds(f.disrupt), q;
    q := AddCollins(qry, f.dosage);
    Chain(head, qry, q, cs, CollinsConds(f.dosage));
    cs, qry := cs + CollinsConds(f.dosage), q;
    assert cs == AppCnvConds(f);
    Close(head, qry, cs, f.numRows, numRows);
    qry := qry + (" LIMIT " + NatToString(numRows));
  }

  // ---------------------------------------------------------------------
  // what the builders promise

  predicate NoSite(s: Site) {
    s.chrom1.None? && s.start.None? && s.end.None?
  }

  /** Neither 'True' nor 'False'. */
  predicate NoFlag(v: Option<string>) {
    v != Some("True") && v != Some("False")
  }

  predicate NoAnnotation(a: Annotation) {
    && a.count.None? && a.dbFreq.None? && a.gnomadFreq.None? && a.project == []
    && a.omimMin.None? && a.omimMax.None? && a.refSeqMin.None? && a.refSeqMax.None?
    && a.omimSym.None? && a.rsSym.None?
  }

  /** Nothing selected on the CGR page. */
  predicate NoCgrSelection(f: CgrFilter) {
    && NoSite(f.site) && f.level == [] && f.svType.None? && f.lenMin.None? && f.lenMax.None?
    && NoFlag(f.sdOl) && NoFlag(f.isProband) && f.project == [] && f.family == [] && f.ptId == []
    && f.clusterId.None?
  }

  /** With nothing selected, CGR_build still keeps only the candidates. */
  lemma CgrBare(f: CgrFilter, table: string)
    requires NoCgrSelection(f)
    ensures CgrQuery(f, table) == CJoinHead(table) + And(Candidate) + LimitText(f.numRows)
  {
    assert CgrConds(f) == [Candidate];
    OneClause(CJoinHead(table), Candidate);
  }

  /** The candidate rule is always the last condition, and the only one
      given as fixed text. */
  lemma CgrCandidateLast(f: CgrFilter)
    ensures var cs := CgrConds(f);
      |cs| >= 1 && cs[|cs| - 1] == Candidate && forall i :: 0 <= i < |cs| - 1 ==> !cs[i].Raw?
  {
    var cs := CgrConds(f);
    var init := cs[..|cs| - 1];
    assert init + [Candidate] == cs;
    assert forall c :: c in init ==> !c.Raw?;
    assert forall i :: 0 <= i < |cs| - 1 ==> cs[i] in init;
  }

  /** CGR_build and CNV_build name the chromosome 'chr' + c in column chr;
      P2_build names it c in column chrom1. */
  lemma ChromClauses(cg: CgrFilter, sv: SvFilter, rs: string, cn: CnvFilter, rs': string, c: string)
    ensures cg.site.chrom1 == Some(c) ==> CgrConds(cg)[0] == EqualsText(Chr, "chr" + c)
    ensures sv.site.chrom1 == Some(c) ==> P2Conds(sv, rs)[0] == EqualsText(Chrom1, c)
    ensures cn.site.chrom1 == Some(c) ==> CnvConds(cn, rs')[0] == EqualsText(Chr, "chr" + c)
  {
    assert "" + c == c;
  }

  /** With nothing selected, P2_build adds no condition. */
  lemma P2Bare(f: SvFilter, table: string, pheno2gene: string -> seq<string>)
    requires NoSite(f.site) && f.svType == [] && f.svLenMin.None? && f.svLenMax.None?
    requires NoFlag(f.sdOl) && NoFlag(f.isProband) && NoAnnotation(f.annot)
    requires f.rsList == "" && f.hpoList == "" && f.family == [] && f.ptId == []
    requires f.genotype != Some("Homozygous") && f.genotype != Some("Heterozygous")
    requires f.clusterId.None? && !AnyDisrupt(f.disrupt)
    ensures P2Query(f, table, pheno2gene) == PJoinHead(table) + LimitText(f.numRows)
  {
    DisruptGroupMeans(f.disrupt);
    assert P2Conds(f, GeneSource(f.hpoList, f.rsList, pheno2gene)) == [];
  }

  /** With no gene, HPO or patient selection, build_qry and P2_build ask for
      the same conditions. */
  lemma AppAgreesWithP2(f: SvFilter, pheno2gene: string -> seq<string>)
    requires f.rsList == "" && f.hpoList == "" && f.ptId == []
    ensures AppSvConds(f) == P2Conds(f, GeneSource(f.hpoList, f.rsList, pheno2gene))
  {
    var rs := GeneSource(f.hpoList, f.rsList, pheno2gene);
    var pre := SiteConds(f.site, Chrom1, "", Pos1, Pos2)
      + AmongConds(SvType, f.svType)
      + SizeConds(SvLen, f.svLenMin, f.svLenMax)
      + (FlagConds(SdOverlap, f.sdOl) + FlagConds(IsProband, f.isProband))
      + AnnotationConds(f.annot);
    assert GeneConds(rs) == [] && AmongConds(MetaPtId, f.ptId) == [] && AmongConds(PtId, f.ptId) == [];
    assert P2Conds(f, rs) == pre + AmongConds(Family, f.family)
      + GenotypeConds(f.genotype) + ValueConds(Cluster, f.clusterId) + DisruptConds(f.disrupt);
  }

  /** With nothing selected, CNV_build adds no condition. */
  lemma CnvBare(f: CnvFilter, table: string, pheno2gene: string -> seq<string>)
    requires NoSite(f.site) && f.level == [] && f.cnvType.None? && f.lenMin.None? && f.lenMax.None?
    requires NoFlag(f.sdOl) && NoFlag(f.isProband) && NoAnnotation(f.annot)
    requires f.rsList == "" && f.hpoList == "" && f.family == [] && f.ptId == []
    requires f.clusterId.None? && !AnyDisrupt(f.disrupt) && !AnyDosage(f.dosage)
    ensures CnvQuery(f, table, pheno2gene) == CJoinHead(table) + LimitText(f.numRows)
  {
    DisruptGroupMeans(f.disrupt);
    DosageGroupMeans(f.dosage);
    assert CnvConds(f, GeneSource(f.hpoList, f.rsList, pheno2gene)) == [];
  }

  /** The breakpoint and dosage boxes of the CNV page each give at most one
      clause, an OR group of exactly the ticked conditions. */
  lemma CnvGroups(f: CnvFilter, rs: string)
    ensures var cs := CnvConds(f, rs);
      var d := OneOf(DisruptConds(f.disrupt));
      var s := OneOf(DosageConds(f.dosage));
      |d| == (if AnyDisrupt(f.disrupt) then 1 else 0) && |s| == (if AnyDosage(f.dosage) then 1 else 0)
      && cs[|cs| - |d| - |s|..] == d + s
  {
    DisruptGroupMeans(f.disrupt);
    DosageGroupMeans(f.dosage);
    var d := OneOf(DisruptConds(f.disrupt));
    var s := OneOf(DosageConds(f.dosage));
    var cs := CnvConds(f, rs);
    var init := cs[..|cs| - |d| - |s|];
    assert cs == init + (d + s);
  }
}
