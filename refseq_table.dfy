/** The RefSeq gene table the annotation reads (util/extract_RefSeq.py):
    the exon rows of a BED file are grouped by gene and chromosome, each
    group becomes one span from its least start to its greatest end, and
    the 'chr' prefix is removed from the chromosome. */
module RefSeqTable {
  import opened Text
  import GroupBy

  /** The columns of an input row the extraction reads. */
  datatype BedRow = BedRow(seqname: string, start: int, end: int, geneId: string)

  /** An output row, columns in their written order. */
  datatype GeneSpan = GeneSpan(chrom: string, start: int, end: int, geneId: string)

  /** The group-by key (gene_id, seqname). */
  function KeyOf(r: BedRow): (string, string) {
    (r.geneId, r.seqname)
  }

  function KeyColumn(rows: seq<BedRow>): (r: seq<(string, string)>)
    ensures |r| == |rows| && forall i :: 0 <= i < |rows| ==> r[i] == KeyOf(rows[i])
  {
    seq(|rows|, i requires 0 <= i < |rows| => KeyOf(rows[i]))
  }

  /** The distinct keys in the order groupby visits them (ascending). */
  function GroupKeys(rows: seq<BedRow>): (ks: seq<(string, string)>)
    ensures GroupBy.Ascending(ks, GroupBy.PairLess)
    ensures forall k :: k in ks <==> exists i :: 0 <= i < |rows| && KeyOf(rows[i]) == k
  {
    GroupBy.PairLessSortKeyOrder();
    var keys := KeyColumn(rows);
    assert forall i :: 0 <= i < |rows| ==> keys[i] in keys;
    GroupBy.Keys(keys, GroupBy.PairLess)
  }

  /** The least start over the rows carrying key k. */
  function MinStart(rows: seq<BedRow>, k: (string, string)): (r: int)
    requires exists i :: 0 <= i < |rows| && KeyOf(rows[i]) == k
    ensures forall i :: 0 <= i < |rows| && KeyOf(rows[i]) == k ==> r <= rows[i].start
    ensures exists i :: 0 <= i < |rows| && KeyOf(rows[i]) == k && rows[i].start == r
    decreases |rows|
  {
    var last := rows[|rows| - 1];
    var init := rows[..|rows| - 1];
    if !exists i :: 0 <= i < |init| && KeyOf(init[i]) == k then
      assert forall i :: 0 <= i < |rows| - 1 ==> init[i] == rows[i];
      last.start
    else
      var m := MinStart(init, k);
      assert forall i :: 0 <= i < |rows| - 1 ==> init[i] == rows[i];
      if KeyOf(last) == k && last.start < m then last.start else m
  }

  /** The greatest end over the rows carrying key k. */
  function MaxEnd(rows: seq<BedRow>, k: (string, string)): (r: int)
    requires exists i :: 0 <= i < |rows| && KeyOf(rows[i]) == k
    ensures forall i :: 0 <= i < |rows| && KeyOf(rows[i]) == k ==> rows[i].end <= r
    ensures exists i :: 0 <= i < |rows| && KeyOf(rows[i]) == k && rows[i].end == r
    decreases |rows|
  {
    var last := rows[|rows| - 1];
    var init := rows[..|rows| - 1];
    if !exists i :: 0 <= i < |init| && KeyOf(init[i]) == k then
      assert forall i :: 0 <= i < |rows| - 1 ==> init[i] == rows[i];
      last.end
    else
      var m := MaxEnd(init, k);
      assert forall i :: 0 <= i < |rows| - 1 ==> init[i] == rows[i];
      if KeyOf(last) == k && last.end > m then last.end else m
  }

  /** The output row of one group: seqname renamed chrom, with every 'chr'
      removed by str.replace. */
  function Span(rows: seq<BedRow>, k: (string, string)): GeneSpan
    requires exists i :: 0 <= i < |rows| && KeyOf(rows[i]) == k
  {
    GeneSpan(RemoveAll(k.1, "chr"), MinStart(rows, k), MaxEnd(rows, k), k.0)
  }

  /** The extracted table: one span per group, in group order. */
  function ExtractRefSeq(rows: seq<BedRow>): (out: seq<GeneSpan>)
    ensures |out| == |GroupKeys(rows)|
  {
    var ks := GroupKeys(rows);
    assert forall i :: 0 <= i < |ks| ==> ks[i] in ks;
    seq(|ks|, i requires 0 <= i < |ks| => Span(rows, ks[i]))
  }

  /** One output row per distinct (gene_id, seqname) pair: the groups are
      visited in ascending pair order, so no pair is visited twice. */
  lemma GroupKeysDistinct(rows: seq<BedRow>, i: nat, j: nat)
    requires i < j < |GroupKeys(rows)|
    ensures GroupKeys(rows)[i] != GroupKeys(rows)[j]
  {
    var ks := GroupKeys(rows);
    GroupBy.PairLessSortKeyOrder();
    assert GroupBy.PairLess(ks[i], ks[j]);
  }

  /** Every input row lies within the span of its pair's output row, which
      carries its gene and its chromosome without 'chr'. */
  lemma SpanCovers(rows: seq<BedRow>, n: nat)
    requires n < |rows|
    ensures var out := ExtractRefSeq(rows);
      var ks := GroupKeys(rows);
      exists i :: 0 <= i < |ks| && ks[i] == KeyOf(rows[n]) &&
        out[i].geneId == rows[n].geneId && out[i].chrom == RemoveAll(rows[n].seqname, "chr") &&
        out[i].start <= rows[n].start && rows[n].end <= out[i].end
  {
    var out := ExtractRefSeq(rows);
    var ks := GroupKeys(rows);
    assert KeyOf(rows[n]) in ks;
    var i :| 0 <= i < |ks| && ks[i] == KeyOf(rows[n]);
    assert out[i] == Span(rows, ks[i]);
  }

  /** The span of an output row starts at a start and ends at an end of
      rows of its pair. */
  lemma SpanAttained(rows: seq<BedRow>, i: nat)
    requires i < |GroupKeys(rows)|
    ensures var out := ExtractRefSeq(rows);
      var k := GroupKeys(rows)[i];
      (exists a :: 0 <= a < |rows| && KeyOf(rows[a]) == k && rows[a].start == out[i].start) &&
      (exists b :: 0 <= b < |rows| && KeyOf(rows[b]) == k && rows[b].end == out[i].end)
  {
    var ks := GroupKeys(rows);
    assert ks[i] in ks;
    assert ExtractRefSeq(rows)[i] == Span(rows, ks[i]);
  }

  /** A UCSC name 'chr' + c, with no further 'chr' in c, becomes c. */
  lemma ChromStripped(c: string)
    requires !Contains(c, "chr")
    ensures RemoveAll("chr" + c, "chr") == c
  {
    assert ("chr" + c)[..3] == "chr";
    assert ("chr" + c)[3..] == c;
    RemoveAllAbsent(c, "chr");
  }
}
