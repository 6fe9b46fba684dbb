/** The per-row annotation wrappers: for each call, every filter of the
    Annotate module is applied and its lists are ';'-joined into one text
    column per annotation. */
module AnnotateCalls {
  import opened Wrappers
  import opened Text
  import opened Annotate

  /** The ';'-join of a list, as every annotation column is written. */
  function Joined(xs: seq<string>): string {
    Join(xs, ";")
  }

  /** A non-empty list whose entries hold no ';' is recovered from its
      join, so the count column equals the number of joined entries; an
      empty list joins to the empty text. */
  lemma {:induction false} JoinedRecoverable(xs: seq<string>)
    requires forall i :: 0 <= i < |xs| ==> ';' !in xs[i]
    ensures |xs| == 0 ==> Joined(xs) == ""
    ensures |xs| > 0 ==> Split(Joined(xs), ';') == xs
  {
    if |xs| > 0 {
      SplitJoin(xs, ';');
    }
  }

  // ---------------------------------------------------------------------
  // helper/P2_annotate.py annotate

  /** The reference tables the P2 annotation loads. */
  datatype P2Tables = P2Tables(
    sd: seq<Feature>, omim: seq<OmimRow>, gnomad: seq<GnomadRow>,
    dgv: seq<DgvRow>, rs: seq<Feature>, rm: seq<Feature>)

  /** The columns of a P2 call the annotation reads. */
  datatype P2Call = P2Call(chrom1: string, chrom2: string, pos1: int, pos2: int, svType: string)

  /** The fifteen columns the annotation adds to one P2 call. */
  datatype P2Annotation = P2Annotation(
    sdOverlap: bool,
    omimCount: nat, omimSymbol: string, omimDisease: string, omimInh: string,
    refSeqCount: nat, refSeqSymbol: string, refSeqLeft: string, refSeqRight: string,
    repeatLeft: string, repeatRight: string,
    gnomadId: string, gnomadAf: string, dgvId: string, dgvAf: string)

  /** The annotation of one call: pos1/pos2 are the call's start and end. */
  function P2Row(c: P2Call, t: P2Tables): P2Annotation {
    P2Columns(SdOverlap(t.sd, c.chrom1, c.pos1, c.pos2, c.svType), c, t)
  }

  /** The columns of one call, given its SD_Overlap value. */
  function P2Columns(sd: bool, c: P2Call, t: P2Tables): P2Annotation {
    var omim := Omim(t.omim, c.chrom1, c.pos1, c.pos2, c.svType);
    var genes := RefSeq(t.rs, c.chrom1, c.pos1, c.chrom2, c.pos2, c.svType);
    var repeats := RepeatMask(t.rm, c.chrom1, c.pos1, c.chrom2, c.pos2);
    var gn := Gnomad(t.gnomad, c.chrom1, c.pos1, c.pos2, c.svType);
    var dg := Dgv(t.dgv, c.chrom1, c.pos1, c.pos2, c.svType);
    P2Annotation(
      sd,
      |omim.symbols|, Joined(omim.symbols), Joined(omim.names), Joined(omim.inh),
      |genes.symbols|, Joined(genes.symbols), Joined(genes.left), Joined(genes.right),
      Joined(repeats.0), Joined(repeats.1),
      Joined(gn.ids), Joined(gn.afs), Joined(dg.ids), Joined(dg.afs))
  }

  /** The first n entries of xs, each mapped by f. */
  function Mapped<A, B>(xs: seq<A>, f: A -> B, n: nat): (r: seq<B>)
    requires n <= |xs|
    ensures |r| == n
    decreases n
  {
    if n == 0 then [] else Mapped(xs, f, n - 1) + [f(xs[n - 1])]
  }

  lemma {:induction false} MappedAt<A, B>(xs: seq<A>, f: A -> B, n: nat)
    requires n <= |xs|
    ensures forall k :: 0 <= k < n ==> Mapped(xs, f, n)[k] == f(xs[k])
    decreases n
  {
    if n > 0 {
      MappedAt(xs, f, n - 1);
    }
  }

  /** The row function of the P2 loop, with the tables fixed. */
  function P2RowOf(t: P2Tables): P2Call -> P2Annotation {
    c => P2Row(c, t)
  }

  lemma P2RowOfIs(t: P2Tables, c: P2Call, sd: bool)
    requires sd == SdOverlap(t.sd, c.chrom1, c.pos1, c.pos2, c.svType)
    ensures P2RowOf(t)(c) == P2Columns(sd, c, t)
  {
  }

  lemma P2MappedAt(calls: seq<P2Call>, t: P2Tables)
    ensures forall i :: 0 <= i < |calls| ==> Mapped(calls, P2RowOf(t), |calls|)[i] == P2Row(calls[i], t)
  {
    MappedAt(calls, P2RowOf(t), |calls|);
  }

  /** annotate: one annotation per call, in row order. */
  method AnnotateP2(calls: seq<P2Call>, t: P2Tables) returns (out: seq<P2Annotation>)
    ensures |out| == |calls|
    ensures forall i :: 0 <= i < |calls| ==> out[i] == P2Row(calls[i], t)
  {
    out := [];
    for i := 0 to |calls|
      invariant out == Mapped(calls, P2RowOf(t), i)
    {
      var c := calls[i];
      var sd := AnnotateSd(t.sd, c.chrom1, c.pos1, c.pos2, c.svType);
      P2RowOfIs(t, c, sd);
      out := out + [P2Columns(sd, c, t)];
    }
    P2MappedAt(calls, t);
  }

  /** OMIM_Count and RefSeq_Count are the numbers of entries in their
      joined symbol columns (when no symbol holds a ';'). */
  lemma P2CountsMatchSymbols(c: P2Call, t: P2Tables)
    requires forall o :: o in t.omim ==> ';' !in o.symbol
    requires forall g :: g in t.rs ==> ';' !in g.name
    ensures var a := P2Row(c, t);
      (a.omimCount == 0 ==> a.omimSymbol == "") &&
      (a.omimCount > 0 ==> |Split(a.omimSymbol, ';')| == a.omimCount) &&
      (a.refSeqCount == 0 ==> a.refSeqSymbol == "") &&
      (a.refSeqCount > 0 ==> |Split(a.refSeqSymbol, ';')| == a.refSeqCount)
  {
    var omim := Omim(t.omim, c.chrom1, c.pos1, c.pos2, c.svType);
    var genes := RefSeq(t.rs, c.chrom1, c.pos1, c.chrom2, c.pos2, c.svType);
    OmimReports(t.omim, c.chrom1, c.pos1, c.pos2, c.svType);
    RefSeqReports(t.rs, c.chrom1, c.pos1, c.chrom2, c.pos2, c.svType);
    forall i | 0 <= i < |omim.symbols| ensures ';' !in omim.symbols[i] {
      assert omim.symbols[i] in omim.symbols;
    }
    forall i | 0 <= i < |genes.symbols| ensures ';' !in genes.symbols[i] {
      assert genes.symbols[i] in genes.symbols;
    }
    JoinedRecoverable(omim.symbols);
    JoinedRecoverable(genes.symbols);
  }

  // ---------------------------------------------------------------------
  // helper/CNV_annotate.py annotate

  /** The columns of a read-depth call the annotation reads; chrom1 is the
      chromosome without its 'chr' prefix. */
  datatype CnvCall = CnvCall(chr: string, chrom1: string, start: int, end: int, kind: string)

  /** The annotated call: chrom1 is dropped, the RefSeq columns added. */
  datatype CnvAnnotated = CnvAnnotated(
    chr: string, start: int, end: int, kind: string,
    refSeqCount: nat, refSeqSymbol: string, refSeqLeft: string, refSeqRight: string)

  /** gain is looked up as a DUP and loss as a DEL; other types assign
      nothing. */
  function TypeOf(kind: string): Option<string> {
    if kind == "gain" then Some("DUP")
    else if kind == "loss" then Some("DEL")
    else None
  }

  /** The SV type in force at row i: the loop variable keeps the value of
      the last gain or loss row at or before i, and is unassigned when
      there is none. */
  function CarriedType(calls: seq<CnvCall>, i: nat): (r: Option<string>)
    requires i < |calls|
    ensures TypeOf(calls[0].kind).Some? ==> r.Some?
    decreases i
  {
    match TypeOf(calls[i].kind)
    case Some(t) => Some(t)
    case None => if i == 0 then None else CarriedType(calls, i - 1)
  }

  /** The type is unassigned at row i exactly when no row up to i is a
      gain or a loss. */
  lemma {:induction false} CarriedTypeUnset(calls: seq<CnvCall>, i: nat)
    requires i < |calls|
    ensures CarriedType(calls, i).None? <==> forall j :: 0 <= j <= i ==> TypeOf(calls[j].kind).None?
    decreases i
  {
    if i > 0 && TypeOf(calls[i].kind).None? {
      CarriedTypeUnset(calls, i - 1);
    }
  }

  /** An assigned type is that of the latest gain or loss row, and every
      row after it up to i assigns nothing. */
  lemma {:induction false} CarriedTypeLatest(calls: seq<CnvCall>, i: nat)
    requires i < |calls| && CarriedType(calls, i).Some?
    ensures exists j :: 0 <= j <= i && TypeOf(calls[j].kind) == CarriedType(calls, i) &&
                        (forall k :: j < k <= i ==> TypeOf(calls[k].kind).None?)
    decreases i
  {
    if TypeOf(calls[i].kind).None? {
      CarriedTypeLatest(calls, i - 1);
      var j :| 0 <= j <= i - 1 && TypeOf(calls[j].kind) == CarriedType(calls, i - 1) &&
        forall k :: j < k <= i - 1 ==> TypeOf(calls[k].kind).None?;
      assert TypeOf(calls[j].kind) == CarriedType(calls, i);
    } else {
      assert TypeOf(calls[i].kind) == CarriedType(calls, i);
    }
  }

  /** The annotation of one read-depth call: RefSeq on the one chromosome. */
  function CnvRow(c: CnvCall, svType: string, rs: seq<Feature>): CnvAnnotated {
    var genes := RefSeq(rs, c.chrom1, c.start, c.chrom1, c.end, svType);
    CnvAnnotated(c.chr, c.start, c.end, c.kind,
      |genes.symbols|, Joined(genes.symbols), Joined(genes.left), Joined(genes.right))
  }

  /** The row function the loop applies, with the RefSeq table fixed. */
  function CnvRowOf(rs: seq<Feature>): (CnvCall, string) -> CnvAnnotated {
    (c, t) => CnvRow(c, t, rs)
  }

  /** The first n rows of a table whose first row is a gain or a loss, each
      mapped by row with the type carried to it. */
  function TypedRows<R>(calls: seq<CnvCall>, row: (CnvCall, string) -> R, n: nat): (r: seq<R>)
    requires n <= |calls|
    requires n == 0 || TypeOf(calls[0].kind).Some?
    ensures |r| == n
    decreases n
  {
    if n == 0 then []
    else TypedRows(calls, row, n - 1) + [row(calls[n - 1], CarriedType(calls, n - 1).value)]
  }

  /** Row k of the mapped table is row k of the input with the type carried
      to it. */
  lemma {:induction false} TypedRowsAt<R>(calls: seq<CnvCall>, row: (CnvCall, string) -> R, n: nat, k: nat)
    requires k < n <= |calls| && TypeOf(calls[0].kind).Some?
    ensures CarriedType(calls, k).Some?
    ensures TypedRows(calls, row, n)[k] == row(calls[k], CarriedType(calls, k).value)
    decreases n
  {
    if k < n - 1 {
      TypedRowsAt(calls, row, n - 1, k);
    }
  }

  /** The first n annotated rows. */
  function CnvRows(calls: seq<CnvCall>, rs: seq<Feature>, n: nat): (r: seq<CnvAnnotated>)
    requires n <= |calls|
    requires n == 0 || TypeOf(calls[0].kind).Some?
    ensures |r| == n
  {
    TypedRows(calls, CnvRowOf(rs), n)
  }

  /** Every annotated row is its input row looked up with the type carried
      to it: the RefSeq columns of that call and type. */
  lemma CnvRowsAt(calls: seq<CnvCall>, rs: seq<Feature>, k: nat)
    requires k < |calls| && TypeOf(calls[0].kind).Some?
    ensures CarriedType(calls, k).Some?
    ensures CnvRows(calls, rs, |calls|)[k] == CnvRow(calls[k], CarriedType(calls, k).value, rs)
  {
    TypedRowsAt(calls, CnvRowOf(rs), |calls|, k);
  }

  /** annotate: a first row that is neither a gain nor a loss reads the
      type before any assignment; otherwise every row is annotated with the
      type carried to it, and chrom1 is dropped. */
  method AnnotateCnv(calls: seq<CnvCall>, rs: seq<Feature>) returns (r: Result<seq<CnvAnnotated>>)
    ensures r.Err? <==> |calls| > 0 && TypeOf(calls[0].kind).None?
    ensures r.Err? ==> r.error == NameError
    ensures r.Ok? ==> (|calls| == 0 || TypeOf(calls[0].kind).Some?) && r.value == CnvRows(calls, rs, |calls|)
  {
    var svType: Option<string> := None;
    var out: seq<CnvAnnotated> := [];
    for i := 0 to |calls|
      invariant i == 0 ==> svType.None?
      invariant i > 0 ==> svType == CarriedType(calls, i - 1) && svType.Some? && TypeOf(calls[0].kind).Some?
      invariant out == CnvRows(calls, rs, i)
    {
      var c := calls[i];
      var given := TypeOf(c.kind);
      if given.Some? {
        svType := given;
      }
      assert svType == CarriedType(calls, i);
      if svType.None? {
        return Err(NameError);
      }
      out := out + [CnvRow(c, svType.value, rs)];
    }
    return Ok(out);
  }

  // ---------------------------------------------------------------------
  // helper/CNV_annotate.py annotate_step2

  /** The six columns added by the second annotation step. */
  datatype Step2Annotation = Step2Annotation(
    syndromes: string, syndromesPolSeg: string, syndromesPolCnv: string,
    isca: string, iscaPolSeg: string, iscaPolCnv: string)

  /** The fractions rendered as text by show. */
  function Shown(xs: seq<real>, show: real -> string): (r: seq<string>)
    ensures |r| == |xs|
  {
    seq(|xs|, i requires 0 <= i < |xs| => show(xs[i]))
  }

  /** Unpacking annotate_overlap's result into three names: a bare empty
      list does not unpack. */
  function Unpack(o: OverlapOut): (r: Result<(seq<string>, seq<real>, seq<real>)>)
    ensures r.Err? <==> o.Bare?
  {
    match o
    case Bare => Err(ValueError)
    case Triple(n, s, c) => Ok((n, s, c))
  }

  /** The columns of a call the second step reads. */
  datatype Region = Region(chr: string, start: int, end: int)

  /** One row of annotate_step2: the DECIPHER syndromes, then the ISCA
      regions. */
  function Step2Row(x: Region, syndromes: seq<Feature>, iscas: seq<Feature>, show: real -> string): (r: Result<Step2Annotation>)
    ensures x.start == x.end ==> r == Err(ValueError)
  {
    match AnnotateOverlap(syndromes, x.chr, x.start, x.end)
    case Err(e) => Err(e)
    case Ok(a) =>
      match Unpack(a)
      case Err(e) => Err(e)
      case Ok((names, seg, cnv)) =>
        match AnnotateOverlap(iscas, x.chr, x.start, x.end)
        case Err(e) => Err(e)
        case Ok(b) =>
          match Unpack(b)
          case Err(e) => Err(e)
          case Ok((names2, seg2, cnv2)) =>
            Ok(Step2Annotation(Joined(names), Joined(Shown(seg, show)), Joined(Shown(cnv, show)),
                               Joined(names2), Joined(Shown(seg2, show)), Joined(Shown(cnv2, show))))
  }

  /** A row with distinct ends fails exactly when a zero-length syndrome
      or ISCA region overlaps it (the fraction divides by zero); a failing
      row raises ZeroDivisionError. */
  lemma Step2RowFails(x: Region, syndromes: seq<Feature>, iscas: seq<Feature>, show: real -> string)
    requires x.start != x.end
    ensures var r := Step2Row(x, syndromes, iscas, show);
      (r.Err? <==> exists g :: (g in syndromes || g in iscas) && Overlaps(g, x.chr, x.start, x.end) && g.end == g.start) &&
      (r.Err? ==> r.error == ZeroDivisionError)
  {
    OverlapReports(syndromes, x.chr, x.start, x.end);
    OverlapReports(iscas, x.chr, x.start, x.end);
  }

  /** The row function of the step-2 loop, with the tables fixed. */
  function Step2RowOf(syndromes: seq<Feature>, iscas: seq<Feature>, show: real -> string): Region -> Result<Step2Annotation> {
    x => Step2Row(x, syndromes, iscas, show)
  }

  lemma Step2RowOfIs(x: Region, syndromes: seq<Feature>, iscas: seq<Feature>, show: real -> string)
    ensures Step2RowOf(syndromes, iscas, show)(x) == Step2Row(x, syndromes, iscas, show)
  {
  }

  /** The first n entries of xs mapped by f, or the first error f raises. */
  function FirstError<A, B>(xs: seq<A>, f: A -> Result<B>, n: nat): (r: Result<seq<B>>)
    requires n <= |xs|
    ensures r.Ok? ==> |r.value| == n
    decreases n
  {
    if n == 0 then Ok([])
    else
      match FirstError(xs, f, n - 1)
      case Err(e) => Err(e)
      case Ok(vs) =>
        match f(xs[n - 1])
        case Err(e) => Err(e)
        case Ok(v) => Ok(vs + [v])
  }

  /** Once an error is raised, later rows do not change it. */
  lemma {:induction false} FirstErrorSticks<A, B>(xs: seq<A>, f: A -> Result<B>, n: nat, m: nat)
    requires n <= m <= |xs| && FirstError(xs, f, n).Err?
    ensures FirstError(xs, f, m) == FirstError(xs, f, n)
    decreases m
  {
    if m > n {
      FirstErrorSticks(xs, f, n, m - 1);
    }
  }

  /** A success maps every row; an error is that of the first failing row. */
  lemma {:induction false} FirstErrorMeans<A, B>(xs: seq<A>, f: A -> Result<B>, n: nat)
    requires n <= |xs|
    ensures var r := FirstError(xs, f, n);
      (r.Ok? ==> forall i :: 0 <= i < n ==> f(xs[i]) == Ok(r.value[i])) &&
      (r.Err? ==> exists i :: 0 <= i < n && f(xs[i]) == Err(r.error) && forall j :: 0 <= j < i ==> f(xs[j]).Ok?)
    decreases n
  {
    if n > 0 {
      FirstErrorMeans(xs, f, n - 1);
      var prev := FirstError(xs, f, n - 1);
      if prev.Ok? && f(xs[n - 1]).Err? {
        assert forall j :: 0 <= j < n - 1 ==> f(xs[j]) == Ok(prev.value[j]);
      }
    }
  }

  /** annotate_step2 over a table: every row annotated, or the error of the
      first row that raises. */
  function Step2Rows(rows: seq<Region>, syndromes: seq<Feature>, iscas: seq<Feature>, show: real -> string): (r: Result<seq<Step2Annotation>>)
    ensures r.Ok? ==> |r.value| == |rows|
  {
    FirstError(rows, Step2RowOf(syndromes, iscas, show), |rows|)
  }

  /** On success every row is its Step2Row, in order; on failure the error
      is that of the first row whose Step2Row fails. */
  lemma Step2RowsMeans(rows: seq<Region>, syndromes: seq<Feature>, iscas: seq<Feature>, show: real -> string)
    ensures var r := Step2Rows(rows, syndromes, iscas, show);
      (r.Ok? ==> forall i :: 0 <= i < |rows| ==> Step2Row(rows[i], syndromes, iscas, show) == Ok(r.value[i])) &&
      (r.Err? ==> exists i :: 0 <= i < |rows| && Step2Row(rows[i], syndromes, iscas, show) == Err(r.error) &&
                              forall j :: 0 <= j < i ==> Step2Row(rows[j], syndromes, iscas, show).Ok?)
  {
    var f := Step2RowOf(syndromes, iscas, show);
    FirstErrorMeans(rows, f, |rows|);
    var r := Step2Rows(rows, syndromes, iscas, show);
    if r.Err? {
      var i :| 0 <= i < |rows| && f(rows[i]) == Err(r.error) && forall j :: 0 <= j < i ==> f(rows[j]).Ok?;
      assert forall j :: 0 <= j < i ==> f(rows[j]) == Step2Row(rows[j], syndromes, iscas, show);
    }
  }

  /** annotate_step2: the loop over the rows, stopping at the first row
      that raises. */
  method AnnotateStep2(rows: seq<Region>, syndromes: seq<Feature>, iscas: seq<Feature>, show: real -> string)
    returns (r: Result<seq<Step2Annotation>>)
    ensures r == Step2Rows(rows, syndromes, iscas, show)
  {
    var row := Step2RowOf(syndromes, iscas, show);
    var out: seq<Step2Annotation> := [];
    for i := 0 to |rows|
      invariant FirstError(rows, row, i) == Ok(out)
    {
      var a := Step2Row(rows[i], syndromes, iscas, show);
      Step2RowOfIs(rows[i], syndromes, iscas, show);
      if a.Err? {
        FirstErrorSticks(rows, row, i + 1, |rows|);
        return Err(a.error);
      }
      out := out + [a.value];
    }
    return Ok(out);
  }
}
