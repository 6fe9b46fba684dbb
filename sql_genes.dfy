/** The gene-list filter of P2_build and CNV_build (query/P2_filters.py,
    query/CNV_filters.py): the comma-separated gene list, or the genes of
    the chosen HPO terms, becomes one OR group of RefSeq_Symbol LIKE
    conditions per 900 genes, closed by a RefSeq_Symbol LIKE "" alternative
    that matches only an empty symbol. */
module GeneClause {
  import opened Wrappers
  import opened Text
  import opened Sql
  import opened SqlFilters
  import GroupBy

  /** Genes per OR group. */
  const ChunkSize: nat := 900

  function Flatten<T>(xss: seq<seq<T>>): seq<T>
    decreases |xss|
  {
    if |xss| == 0 then [] else xss[0] + Flatten(xss[1..])
  }

  lemma {:induction false} FlattenIn<T>(xss: seq<seq<T>>, x: T)
    ensures x in Flatten(xss) <==> exists i :: 0 <= i < |xss| && x in xss[i]
    decreases |xss|
  {
    if |xss| > 0 {
      FlattenIn(xss[1..], x);
      if x in Flatten(xss[1..]) {
        var i :| 0 <= i < |xss[1..]| && x in xss[1..][i];
        assert x in xss[i + 1];
      }
      if exists i :: 0 <= i < |xss| && x in xss[i] {
        var i :| 0 <= i < |xss| && x in xss[i];
        if i > 0 { assert x in xss[1..][i - 1]; }
      }
    }
  }

  // ---------------------------------------------------------------------
  // the gene list and its chunks

  /** [x.strip().upper() for x in rs_list.split(',')] */
  function Genes(rsList: string): (r: seq<string>)
    ensures |r| >= 1
  {
    var ps := Split(rsList, ',');
    seq(|ps|, i requires 0 <= i < |ps| => Upper(Strip(ps[i])))
  }

  /** [genes[i:i+900] for i in range(0, len(genes), 900)] */
  function Chunks(genes: seq<string>): (r: seq<seq<string>>)
    ensures forall k :: 0 <= k < |r| ==> 1 <= |r[k]| <= ChunkSize
    decreases |genes|
  {
    if |genes| == 0 then []
    else if |genes| <= ChunkSize then [genes]
    else [genes[..ChunkSize]] + Chunks(genes[ChunkSize..])
  }

  /** The chunks, one after the other, are the gene list. */
  lemma {:induction false} ChunksFlatten(genes: seq<string>)
    ensures Flatten(Chunks(genes)) == genes
    decreases |genes|
  {
    if |genes| > ChunkSize {
      var rest := genes[ChunkSize..];
      ChunksFlatten(rest);
      assert Chunks(genes)[1..] == Chunks(rest);
      assert genes[..ChunkSize] + rest == genes;
    } else if |genes| > 0 {
      assert Flatten(Chunks(genes)) == genes + Flatten([]);
    }
  }

  /** Chunk k is the slice genes[900k : 900k + 900], and there are
      ceil(len(genes) / 900) of them. */
  lemma {:induction false} ChunksSlices(genes: seq<string>)
    ensures |Chunks(genes)| == (|genes| + ChunkSize - 1) / ChunkSize
    ensures forall k :: 0 <= k < |Chunks(genes)| ==>
      var lo := k * ChunkSize;
      var hi := if lo + ChunkSize <= |genes| then lo + ChunkSize else |genes|;
      lo <= hi <= |genes| && Chunks(genes)[k] == genes[lo..hi]
    decreases |genes|
  {
    if |genes| > ChunkSize {
      var rest := genes[ChunkSize..];
      ChunksSlices(rest);
      var cs := Chunks(genes);
      assert cs == [genes[..ChunkSize]] + Chunks(rest);
      assert |cs| == |Chunks(rest)| + 1;
      assert (|rest| + ChunkSize - 1) / ChunkSize + 1 == (|genes| + ChunkSize - 1) / ChunkSize;
      forall k | 0 <= k < |cs|
        ensures var lo := k * ChunkSize;
          var hi := if lo + ChunkSize <= |genes| then lo + ChunkSize else |genes|;
          lo <= hi <= |genes| && cs[k] == genes[lo..hi]
      {
        if k == 0 {
          assert cs[0] == genes[..ChunkSize];
        } else {
          var lo' := (k - 1) * ChunkSize;
          var hi' := if lo' + ChunkSize <= |rest| then lo' + ChunkSize else |rest|;
          assert cs[k] == Chunks(rest)[k - 1] == rest[lo'..hi'];
          assert k * ChunkSize == lo' + ChunkSize;
          assert rest[lo'..hi'] == genes[lo' + ChunkSize..hi' + ChunkSize];
        }
      }
    } else if |genes| > 0 {
      assert Chunks(genes) == [genes];
    } else {
      assert Chunks(genes) == [];
    }
  }

  // ---------------------------------------------------------------------
  // the condition

  /** RefSeq_Symbol LIKE "%g%" */
  function LikeGene(g: string): Cond {
    Like(RefSeqSymbol, "%" + g + "%")
  }

  function Likes(gs: seq<string>): (r: seq<Cond>)
    ensures |r| == |gs| && forall i :: 0 <= i < |gs| ==> r[i] == LikeGene(gs[i])
  {
    seq(|gs|, i requires 0 <= i < |gs| => LikeGene(gs[i]))
  }

  /** One OR group per chunk. */
  function Groups(chunks: seq<seq<string>>): (r: seq<Cond>)
    ensures |r| == |chunks| && forall k :: 0 <= k < |chunks| ==> r[k] == AnyOf(Likes(chunks[k]))
  {
    seq(|chunks|, k requires 0 <= k < |chunks| => AnyOf(Likes(chunks[k])))
  }

  /** The last alternative, RefSeq_Symbol LIKE "", which matches only an
      empty symbol. */
  const Closer: Cond := Like(RefSeqSymbol, "")

  function GeneCond(genes: seq<string>): Cond {
    AnyOf(Groups(Chunks(genes)) + [Closer])
  }

  /** The gene-list clause, present when the list text is not empty. */
  function GeneConds(rsList: string): seq<Cond> {
    if |rsList| != 0 then [GeneCond(Genes(rsList))] else []
  }

  /** The LIKE alternatives of the groups, one group after the other, are
      one per listed gene, in list order: every gene appears exactly once. */
  lemma EveryGeneOnce(genes: seq<string>)
    ensures var gs := Groups(Chunks(genes));
      Flatten(seq(|gs|, k requires 0 <= k < |gs| => gs[k].alts)) == Likes(genes)
  {
    var chunks := Chunks(genes);
    var gs := Groups(chunks);
    var alts := seq(|gs|, k requires 0 <= k < |gs| => gs[k].alts);
    assert alts == seq(|chunks|, k requires 0 <= k < |chunks| => Likes(chunks[k]));
    FlattenLikes(chunks);
    ChunksFlatten(genes);
  }

  lemma {:induction false} FlattenLikes(chunks: seq<seq<string>>)
    ensures Flatten(seq(|chunks|, k requires 0 <= k < |chunks| => Likes(chunks[k]))) == Likes(Flatten(chunks))
    decreases |chunks|
  {
    if |chunks| > 0 {
      var ls := seq(|chunks|, k requires 0 <= k < |chunks| => Likes(chunks[k]));
      var rest := chunks[1..];
      FlattenLikes(rest);
      assert ls[1..] == seq(|rest|, k requires 0 <= k < |rest| => Likes(rest[k]));
      assert Likes(chunks[0] + Flatten(rest)) == Likes(chunks[0]) + Likes(Flatten(rest));
    }
  }

  // ---------------------------------------------------------------------
  // the builder steps

  /** The text of one group: its LIKE texts joined by ' OR ' in
      parentheses. */
  predicate LikeTexts(texts: seq<string>, gene: seq<string>, n: nat)
    requires n <= |gene|
  {
    |texts| == n && forall i :: 0 <= i < n ==> texts[i] == CondText(LikeGene(gene[i]))
  }

  lemma GroupText(gene: seq<string>, texts: seq<string>)
    requires LikeTexts(texts, gene, |gene|)
    ensures CondText(AnyOf(Likes(gene))) == "(" + Join(texts, " OR ") + ")"
  {
    AnyOfText(Likes(gene), texts);
  }

  lemma NextLike(mark: string, q: string, texts: seq<string>, gene: seq<string>, j: nat)
    requires 1 <= j < |gene| && LikeTexts(texts, gene, j)
    requires q == mark + ("(" + Join(texts, " OR "))
    ensures var t := CondText(LikeGene(gene[j]));
      q + (" OR " + t) == mark + ("(" + Join(texts + [t], " OR ")) &&
      LikeTexts(texts + [t], gene, j + 1)
  {
    var t := CondText(LikeGene(gene[j]));
    var J := Join(texts, " OR ");
    JoinSnoc(texts, t, " OR ");
    assert Join(texts + [t], " OR ") == J + " OR " + t;
    assert mark + ("(" + (J + " OR " + t)) == (mark + ("(" + J)) + (" OR " + t);
    LikeTextsSnoc(texts, gene, j, t);
  }

  lemma LikeTextsSnoc(texts: seq<string>, gene: seq<string>, j: nat, t: string)
    requires j < |gene| && LikeTexts(texts, gene, j) && t == CondText(LikeGene(gene[j]))
    ensures LikeTexts(texts + [t], gene, j + 1)
  {
  }

  /** The texts of the first k groups. */
  predicate GroupTexts(groups: seq<string>, chunks: seq<seq<string>>, k: nat)
    requires k <= |chunks|
  {
    |groups| == k && forall i :: 0 <= i < k ==> groups[i] == CondText(AnyOf(Likes(chunks[i])))
  }

  lemma NextGroup(start: string, q: string, texts: seq<string>, t: string)
    requires q == start + Terminated(texts, " OR ")
    ensures q + t + " OR " == start + Terminated(texts + [t], " OR ")
  {
    assert (texts + [t])[..|texts|] == texts;
  }

  lemma Regroup2(a: string, b: string, j: string, c: string, d: string)
    ensures a + (b + j) + (c + d) == a + (b + j + c) + d
  {
  }

  /** A finished group joins the list of group texts. */
  lemma EndGroup(start: string, mark: string, q: string, groups: seq<string>, chunks: seq<seq<string>>, k: nat, texts: seq<string>)
    requires k < |chunks| && GroupTexts(groups, chunks, k)
    requires mark == start + Terminated(groups, " OR ")
    requires q == mark + ("(" + Join(texts, " OR "))
    requires LikeTexts(texts, chunks[k], |chunks[k]|)
    ensures var g := CondText(AnyOf(Likes(chunks[k])));
      q + ") OR " == start + Terminated(groups + [g], " OR ") &&
      GroupTexts(groups + [g], chunks, k + 1)
  {
    var gene := chunks[k];
    GroupText(gene, texts);
    NextGroup(start, mark, groups, CondText(AnyOf(Likes(gene))));
    assert ") OR " == ")" + " OR ";
    Regroup2(mark, "(", Join(texts, " OR "), ")", " OR ");
  }

  /** The nested loops of the builders over the chunks and their genes. */
  method AddGenes(qry: string, rsList: string) returns (q: string)
    ensures q == qry + Clauses(GeneConds(rsList))
  {
    q := qry;
    if |rsList| != 0 {
      var genes := Genes(rsList);
      var chunks := Chunks(genes);
      q := q + " AND (";
      ghost var start := q;
      ghost var groups: seq<string> := [];
      for k := 0 to |chunks|
        invariant q == start + Terminated(groups, " OR ")
        invariant GroupTexts(groups, chunks, k)
      {
        var gene := chunks[k];
        ghost var mark := q;
        q := q + ("(" + CondText(LikeGene(gene[0])));
        ghost var texts: seq<string> := [CondText(LikeGene(gene[0]))];
        assert q == mark + ("(" + Join(texts, " OR "));
        for j := 1 to |gene|
          invariant LikeTexts(texts, gene, j)
          invariant q == mark + ("(" + Join(texts, " OR "))
        {
          NextLike(mark, q, texts, gene, j);
          q := q + (" OR " + CondText(LikeGene(gene[j])));
          texts := texts + [CondText(LikeGene(gene[j]))];
        }
        EndGroup(start, mark, q, groups, chunks, k, texts);
        q := q + ") OR ";
        groups := groups + [CondText(AnyOf(Likes(gene)))];
      }
      q := q + "RefSeq_Symbol LIKE \"\")";
      CloseGenes(qry, q, chunks, groups);
      assert GeneConds(rsList) == [AnyOf(Groups(chunks) + [Closer])];
    }
  }

  lemma Regroup(a: string, b: string, c: string, t: string, x: string, d: string)
    ensures a + (b + c) + t + (x + d) == a + (b + (c + (t + x) + d))
  {
  }

  lemma CloserText()
    ensures CondText(Closer) == "RefSeq_Symbol LIKE \"\""
  {
  }

  lemma CloseGenes(qry: string, q: string, chunks: seq<seq<string>>, groups: seq<string>)
    requires GroupTexts(groups, chunks, |chunks|)
    requires q == qry + " AND (" + Terminated(groups, " OR ") + "RefSeq_Symbol LIKE \"\")"
    ensures q == qry + Clauses([AnyOf(Groups(chunks) + [Closer])])
  {
    var alts := Groups(chunks) + [Closer];
    var ct := CondText(Closer);
    CloserText();
    var texts := groups + [ct];
    forall i | 0 <= i < |alts| ensures texts[i] == CondText(alts[i]) {
      if i < |groups| {
        assert alts[i] == Groups(chunks)[i];
      }
    }
    AnyOfText(alts, texts);
    JoinTerminated(groups, ct, " OR ");
    var t := Terminated(groups, " OR ");
    assert CondText(AnyOf(alts)) == "(" + (t + ct) + ")";
    assert "RefSeq_Symbol LIKE \"\")" == ct + ")";
    assert " AND (" == " AND " + "(";
    Regroup(qry, " AND ", "(", t, ct, ")");
    OneClause(qry, AnyOf(alts));
  }

  // ---------------------------------------------------------------------
  // HPO terms

  /** [x.strip() for x in hpo_list.split(',')] */
  function HpoIds(hpoList: string): seq<string> {
    var ps := Split(hpoList, ',');
    seq(|ps|, i requires 0 <= i < |ps| => Strip(ps[i]))
  }

  /** pheno2gene of each id, in id order. */
  function Lookups(ids: seq<string>, pheno2gene: string -> seq<string>): seq<seq<string>> {
    seq(|ids|, i requires 0 <= i < |ids| => pheno2gene(ids[i]))
  }

  /** list(set(...)) of all looked-up genes: each once, in ascending order. */
  function HpoGenes(hpoList: string, pheno2gene: string -> seq<string>): seq<string> {
    GroupBy.StrKeys(Flatten(Lookups(HpoIds(hpoList), pheno2gene)))
  }

  /** The gene list the clause is built from: a non-empty HPO list replaces
      the typed list by the comma-join of its genes. */
  function GeneSource(hpoList: string, rsList: string, pheno2gene: string -> seq<string>): string {
    if |hpoList| != 0 then Join(HpoGenes(hpoList, pheno2gene), ",") else rsList
  }

  method ExpandHpo(hpoList: string, rsList: string, pheno2gene: string -> seq<string>) returns (rs: string)
    ensures rs == GeneSource(hpoList, rsList, pheno2gene)
  {
    rs := rsList;
    if |hpoList| != 0 {
      var ids := HpoIds(hpoList);
      var tmp: seq<seq<string>> := [];
      for i := 0 to |ids|
        invariant tmp == Lookups(ids[..i], pheno2gene)
      {
        tmp := tmp + [pheno2gene(ids[i])];
      }
      assert ids[..|ids|] == ids;
      var out := GroupBy.StrKeys(Flatten(tmp));
      rs := Join(out, ",");
    }
  }

  /** The genes of the HPO terms are exactly those pheno2gene gives for
      some listed term. */
  lemma HpoGenesFound(hpoList: string, pheno2gene: string -> seq<string>, g: string)
    ensures var ids := HpoIds(hpoList);
      g in HpoGenes(hpoList, pheno2gene) <==> exists i :: 0 <= i < |ids| && g in pheno2gene(ids[i])
  {
    var ids := HpoIds(hpoList);
    var ls := Lookups(ids, pheno2gene);
    FlattenIn(ls, g);
    assert forall i :: 0 <= i < |ids| ==> ls[i] == pheno2gene(ids[i]);
  }

  /** Each gene of the HPO terms is listed once. */
  lemma HpoGenesDistinct(hpoList: string, pheno2gene: string -> seq<string>, i: nat, j: nat)
    requires i < j < |HpoGenes(hpoList, pheno2gene)|
    ensures HpoGenes(hpoList, pheno2gene)[i] != HpoGenes(hpoList, pheno2gene)[j]
  {
    var out := HpoGenes(hpoList, pheno2gene);
    assert GroupBy.StrLess(out[i], out[j]);
    GroupBy.StrLessIrreflexive(out[i]);
  }

  /** When the HPO terms give comma-free genes, the clause lists exactly
      those genes (stripped and upper-cased). */
  lemma HpoGeneList(hpoList: string, rsList: string, pheno2gene: string -> seq<string>)
    requires |hpoList| != 0 && |HpoGenes(hpoList, pheno2gene)| >= 1
    requires forall i :: 0 <= i < |HpoGenes(hpoList, pheno2gene)| ==> ',' !in HpoGenes(hpoList, pheno2gene)[i]
    ensures var out := HpoGenes(hpoList, pheno2gene);
      Genes(GeneSource(hpoList, rsList, pheno2gene)) == seq(|out|, i requires 0 <= i < |out| => Upper(Strip(out[i])))
  {
    SplitJoin(HpoGenes(hpoList, pheno2gene), ',');
  }

  /** HPO terms with no genes leave an empty gene list, so the query has no
      gene clause at all and a typed gene list is dropped too. */
  lemma HpoWithoutGenes(hpoList: string, rsList: string, pheno2gene: string -> seq<string>)
    requires |hpoList| != 0 && HpoGenes(hpoList, pheno2gene) == []
    ensures GeneConds(GeneSource(hpoList, rsList, pheno2gene)) == []
  {
  }
}
