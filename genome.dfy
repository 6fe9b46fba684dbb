/** The linear genome coordinate
    the clustering uses: a position plus the summed sizes of all
    chromosomes listed before its own (Size.cumsum().shift(fill_value=0)). */
module Genome {
  import opened Wrappers
  import opened Assemblies

  type Table = seq<Contig>

  /** The table for a reference version; only hg19 and hg38 are known. */
  function SizeTable(refVer: string): (r: Option<Table>)
    ensures r.Some? <==> refVer == "hg19" || refVer == "hg38"
    ensures r.Some? ==> |r.value| == 24 && NoDup(Names(r.value))
  {
    TablesDuplicateFree();
    if refVer == "hg19" then Some(Hg19)
    else if refVer == "hg38" then Some(Hg38)
    else None
  }

  function Names(t: Table): (r: seq<string>)
    ensures |r| == |t| && forall i :: 0 <= i < |t| ==> r[i] == t[i].name
  {
    seq(|t|, i requires 0 <= i < |t| => t[i].name)
  }

  predicate NoDup<T(==)>(xs: seq<T>) {
    forall i, j :: 0 <= i < j < |xs| ==> xs[i] != xs[j]
  }

  /** Each chromosome is listed once in each table. */
  lemma TablesDuplicateFree()
    ensures NoDup(Names(Hg19)) && NoDup(Names(Hg38))
  {
    Hg19DuplicateFree();
    Hg38DuplicateFree();
    assert forall i, j :: 0 <= i < j < |Hg19| ==> Names(Hg19)[i] != Names(Hg19)[j];
  }

  /** cum_size of row i: the sum of the sizes of rows 0 .. i-1. */
  function CumSize(t: Table, i: nat): nat
    requires i <= |t|
    decreases i
  {
    if i == 0 then 0 else CumSize(t, i - 1) + t[i - 1].size
  }

  /** The chromosomes' coordinate ranges follow each other without overlap:
      row i's range ends at or before row j's begins. */
  lemma {:induction false} CumSizeOrdered(t: Table, i: nat, j: nat)
    requires i < j <= |t|
    ensures CumSize(t, i) + t[i].size <= CumSize(t, j)
    decreases j - i
  {
    if j > i + 1 {
      CumSizeOrdered(t, i, j - 1);
    }
  }

  /** The row holding chromosome `name` (the first one, if listed twice). */
  function IndexOf(t: Table, name: string): (r: Option<nat>)
    ensures r.Some? ==> r.value < |t| && t[r.value].name == name
    ensures r.Some? ==> forall j :: 0 <= j < r.value ==> t[j].name != name
    ensures r.None? <==> forall j :: 0 <= j < |t| ==> t[j].name != name
    decreases |t|
  {
    if |t| == 0 then None
    else if t[0].name == name then Some(0)
    else match IndexOf(t[1..], name)
      case None => None
      case Some(k) => Some(k + 1)
  }

  /** The cum_size the merge on 'Chromosome' attaches to a row whose
      chromosome is `name`; None when the name is not in the table (the
      inner merge drops such rows). */
  function Offset(t: Table, name: string): (r: Option<nat>)
    ensures r.Some? <==> name in Names(t)
  {
    match IndexOf(t, name)
    case None => None
    case Some(i) => Some(CumSize(t, i))
  }

  /** A 1-based position on a chromosome of the table. */
  predicate OnContig(t: Table, i: nat, p: int) {
    i < |t| && 1 <= p <= t[i].size
  }

  /** Linear positions identify the chromosome and the position on it:
      different (chromosome, position) pairs never collide. */
  lemma LinearInjective(t: Table, i: nat, p: int, j: nat, q: int)
    requires OnContig(t, i, p) && OnContig(t, j, q)
    requires CumSize(t, i) + p == CumSize(t, j) + q
    ensures i == j && p == q
  {
    if i < j {
      CumSizeOrdered(t, i, j);
    } else if j < i {
      CumSizeOrdered(t, j, i);
    }
  }

  /** In a duplicate-free table, a name's offset is the cum_size of the
      one row carrying that name. */
  lemma OffsetOfRow(t: Table, i: nat)
    requires i < |t| && NoDup(Names(t))
    ensures Offset(t, t[i].name) == Some(CumSize(t, i))
  {
    var k := IndexOf(t, t[i].name).value;
    assert Names(t)[k] == Names(t)[i];
  }
}
