/** The SQL text the query builders assemble (query/CGR_filters.py,
    query/P2_filters.py, query/CNV_filters.py and app.py): a fixed SELECT
    head, one ' AND <condition>' clause per active filter in a fixed order,
    and a closing ' LIMIT n'. A condition is kept as a value so that what a
    query constrains can be stated without searching its text; CondText is
    the f-string each builder writes for it. */
module Sql {
  import opened Wrappers
  import opened Text

  /** A column, by the name the query text uses for it. */
  type Column = string

  const Chr: Column := "chr"
  const Chrom1: Column := "chrom1"
  const Start: Column := "start"
  const End: Column := "end"
  const Pos1: Column := "pos1"
  const Pos2: Column := "pos2"
  const CgrLvl: Column := "cgr_lvl"
  const CnvLvl: Column := "cnv_lvl"
  const Type: Column := "type"
  const SvType: Column := "SV_type"
  const Len: Column := "len"
  const SvLen: Column := "SV_len"
  const SdOverlap: Column := "SD_Overlap"
  const IsProband: Column := "is_proband"
  const UniquePtIdCount: Column := "unique_pt_id_count"
  const PsuedoDfFreq: Column := "psuedo_df_freq"
  const GnomadAf: Column := "gnomAD_AF"
  const Project: Column := "project"
  const Family: Column := "family"
  const PtId: Column := "pt_id"
  const MetaPtId: Column := "m.pt_id"
  const Cluster: Column := "cluster"
  const OmimCount: Column := "OMIM_Count"
  const RefSeqCount: Column := "RefSeq_Count"
  const OmimSymbol: Column := "OMIM_Symbol"
  const RefSeqSymbol: Column := "RefSeq_Symbol"
  const Genotype: Column := "genotype"
  const RefSeqDisruptLeft: Column := "RefSeq_Disrupt_left"
  const RefSeqDisruptRight: Column := "RefSeq_Disrupt_right"
  const RepeatMaskDisruptLeft: Column := "RepeatMask_Disrupt_left"
  const RepeatMaskDisruptRight: Column := "RepeatMask_Disrupt_right"
  const PHaploCollins: Column := "pHaplo_Collins"
  const PTriploCollins: Column := "pTriplo_Collins"
  const PHaploClinGen: Column := "pHaplo_clinGen"
  const PTriploClinGen: Column := "pTriplo_clinGen"
  const DecipherCnvSyndromes: Column := "DECIPHER_CNV_Syndromes"
  const Isca: Column := "ISCA"

  /** A WHERE condition. Numbers are carried as the text the f-string
      prints for them. */
  datatype Cond =
    | Equals(col: Column, value: string)              // col = value
    | EqualsText(col: Column, text: string)           // col = "text"
    | AtLeast(col: Column, value: string)             // col >= value
    | AtMost(col: Column, value: string)              // col <= value
    | Between(col: Column, lo: string, hi: string)    // col BETWEEN lo and hi
    | Among(col: Column, values: seq<string>)         // col IN ("v1", "v2", ...)
    | Like(col: Column, pattern: string)              // col LIKE "pattern"
    | NotNull(col: Column)                            // col IS NOT NULL
    | AnyOf(alts: seq<Cond>)                          // (a1 OR a2 OR ...)
    | Raw(text: string)                               // fixed text

  /** The text a builder writes for a condition. */
  function CondText(c: Cond): string
    decreases c
  {
    match c
    case Equals(col, v) => col + " = " + v
    case EqualsText(col, t) => col + " = \"" + t + "\""
    case AtLeast(col, v) => col + " >= " + v
    case AtMost(col, v) => col + " <= " + v
    case Between(col, lo, hi) => col + " BETWEEN " + lo + " and " + hi
    case Among(col, vs) => col + " IN (\"" + Join(vs, "\", \"") + "\")"
    case Like(col, p) => col + " LIKE \"" + p + "\""
    case NotNull(col) => col + " IS NOT NULL"
    case AnyOf(alts) =>
      "(" + Join(seq(|alts|, i requires 0 <= i < |alts| => CondText(alts[i])), " OR ") + ")"
    case Raw(t) => t
  }

  /** The column a simple condition constrains; none for an OR group or
      fixed text. */
  function ColumnOf(c: Cond): Option<Column> {
    match c
    case AnyOf(_) => None
    case Raw(_) => None
    case _ => Some(c.col)
  }

  /** An OR group is written as its alternatives' texts joined by ' OR '
      inside parentheses, whichever list of those texts the builder kept. */
  lemma AnyOfText(alts: seq<Cond>, texts: seq<string>)
    requires |texts| == |alts|
    requires forall i :: 0 <= i < |alts| ==> texts[i] == CondText(alts[i])
    ensures CondText(AnyOf(alts)) == "(" + Join(texts, " OR ") + ")"
  {
    assert texts == seq(|alts|, i requires 0 <= i < |alts| => CondText(alts[i]));
  }

  /** One clause as the builders append it. */
  function And(c: Cond): string {
    " AND " + CondText(c)
  }

  /** The texts of a list of items, one after the other. */
  function Joined<T>(xs: seq<T>, text: T -> string): string
    decreases |xs|
  {
    if |xs| == 0 then "" else Joined(xs[..|xs| - 1], text) + text(xs[|xs| - 1])
  }

  lemma JoinedSnoc<T>(xs: seq<T>, x: T, text: T -> string)
    ensures Joined(xs + [x], text) == Joined(xs, text) + text(x)
  {
    assert (xs + [x])[..|xs|] == xs;
  }

  lemma {:induction false} JoinedAppend<T>(a: seq<T>, b: seq<T>, text: T -> string)
    ensures Joined(a + b, text) == Joined(a, text) + Joined(b, text)
    decreases |b|
  {
    if |b| == 0 {
      assert a + b == a;
    } else {
      var init := b[..|b| - 1];
      JoinedAppend(a, init, text);
      assert (a + b)[..|a + b| - 1] == a + init;
      assert (a + b)[|a + b| - 1] == b[|b| - 1];
    }
  }

  function AndOf(): Cond -> string {
    c => And(c)
  }

  /** The clauses of a list of conditions, in order. */
  function Clauses(cs: seq<Cond>): string {
    Joined(cs, AndOf())
  }

  /** Appending one clause to the text appends its condition to the list. */
  lemma ClausesSnoc(cs: seq<Cond>, c: Cond)
    ensures Clauses(cs + [c]) == Clauses(cs) + And(c)
  {
    JoinedSnoc(cs, c, AndOf());
  }

  /** The clauses of two lists, one after the other. */
  lemma ClausesAppend(a: seq<Cond>, b: seq<Cond>)
    ensures Clauses(a + b) == Clauses(a) + Clauses(b)
  {
    JoinedAppend(a, b, AndOf());
  }

  /** The num_rows selector: a count, or 'All'. */
  datatype Rows = All | Count(n: nat)

  /** 'All' is written as the fixed bound 184467440737095516. */
  const AllRows: nat := 184467440737095516

  function LimitValue(rows: Rows): (n: nat)
    ensures rows.All? ==> n == AllRows
    ensures rows.Count? ==> n == rows.n
  {
    match rows
    case All => AllRows
    case Count(n) => n
  }

  /** The closing clause. */
  function LimitText(rows: Rows): string {
    " LIMIT " + NatToString(LimitValue(rows))
  }

  /** A whole query: head, clauses, limit. */
  function Query(head: string, cs: seq<Cond>, rows: Rows): string {
    head + Clauses(cs) + LimitText(rows)
  }

  lemma Framed(head: string, mid: string, tail: string)
    ensures var q := head + mid + tail;
      |head| + |tail| <= |q| && q[..|head|] == head && q[|q| - |tail|..] == tail
  {
    var q := head + mid + tail;
    assert q == head + (mid + tail);
  }

  /** Every query opens with its head and closes with ' LIMIT n'. */
  lemma QueryShape(head: string, cs: seq<Cond>, rows: Rows)
    ensures var q := Query(head, cs, rows);
      var tail := LimitText(rows);
      |head| + |tail| <= |q| && q[..|head|] == head && q[|q| - |tail|..] == tail
  {
    Framed(head, Clauses(cs), LimitText(rows));
  }

  /** n in ' LIMIT n' is the chosen count, or 184467440737095516 for 'All',
      printed in decimal. */
  lemma LimitDigits(rows: Rows)
    ensures LimitText(rows)[..7] == " LIMIT "
    ensures DigitsValue(LimitText(rows)[7..]) == (if rows.All? then AllRows else rows.n)
  {
    var d := NatToString(LimitValue(rows));
    assert LimitText(rows)[7..] == d;
    NatToStringValue(LimitValue(rows));
  }
}
