/** Reading one subject's structural-variant calls from the tab-separated
    data lines of a Sniffles2 VCF file: the INFO column (column 8, section
    1.4.1 of VCF 4.2) is read as a key=value dictionary, and a breakend's
    mate position comes from the bracketed chrom:pos of its ALT column
    (section 5.4 of VCF 4.2). Any failure on any line discards the whole
    file's calls. */
module Snf2Calls {
  import opened Wrappers
  import opened Text
  import opened Calls
  import opened Lines

  /** A subject's row of the metadata table; a missing (NaN) path is None. */
  datatype Subject = Subject(pt: string, family: string, project: string, isProband: bool,
                             hg38Path: Option<string>, hg19Path: Option<string>)

  // ---------------------------------------------------------------------
  // The INFO dictionary

  /** An INFO value: the text after the first '=', or True for a flag. */
  datatype InfoVal = Text(s: string) | Flag

  /** One ';'-entry: split at its first '=', or a flag when it has none. */
  function Entry(item: string): (r: (string, InfoVal))
    ensures '=' !in r.0
    ensures '=' in item ==> r.1.Text? && r.0 + "=" + r.1.s == item
    ensures '=' !in item ==> r == (item, Flag)
  {
    if '=' in item then
      var (k, v) := SplitOnce(item, '=');
      (k, Text(v))
    else (item, Flag)
  }

  /** dict(...) over the entries, built left to right. */
  function InfoDict(items: seq<string>): map<string, InfoVal>
    decreases |items|
  {
    if |items| == 0 then map[]
    else
      var e := Entry(Last(items));
      InfoDict(items[..|items| - 1])[e.0 := e.1]
  }

  /** The index of the last entry carrying `key`. */
  function LastIndex(items: seq<string>, key: string): (r: Option<nat>)
    ensures r.None? <==> forall i :: 0 <= i < |items| ==> Entry(items[i]).0 != key
    ensures r.Some? ==> r.value < |items| && Entry(items[r.value]).0 == key
    ensures r.Some? ==> forall j :: r.value < j < |items| ==> Entry(items[j]).0 != key
    decreases |items|
  {
    if |items| == 0 then None
    else if Entry(Last(items)).0 == key then Some(|items| - 1)
    else
      var init := items[..|items| - 1];
      var r := LastIndex(init, key);
      assert forall i :: 0 <= i < |init| ==> init[i] == items[i];
      r
  }

  /** A later entry overrides an earlier one: the dictionary holds a key
      exactly when some entry carries it, with the last such entry's value. */
  lemma {:induction false} InfoDictLastWins(items: seq<string>, key: string)
    ensures key in InfoDict(items) <==> LastIndex(items, key).Some?
    ensures key in InfoDict(items) ==> InfoDict(items)[key] == Entry(items[LastIndex(items, key).value]).1
    decreases |items|
  {
    if |items| > 0 {
      InfoDictLastWins(items[..|items| - 1], key);
    }
  }

  /** info_dict.get('SVTYPE', 'UNK'); a bare SVTYPE flag is read as "True". */
  function SvTypeOf(info: map<string, InfoVal>): string {
    if "SVTYPE" !in info then "UNK"
    else match info["SVTYPE"]
      case Text(s) => s
      case Flag => "True"
  }

  /** int() of an INFO value; a flag is True, which reads as 1. */
  function IntOf(v: InfoVal): Result<int> {
    match v
    case Text(s) => ParseInt(s)
    case Flag => Ok(1)
  }

  function Abs(n: int): nat {
    if n < 0 then -n else n
  }

  // ---------------------------------------------------------------------
  // The breakend mate: re.search(r'[\[\]]([^\[\]]+)[\[\]]', alt)

  predicate IsBracket(c: char) {
    c == '[' || c == ']'
  }

  /** A match of the pattern spans a .. b: brackets at both ends and a
      non-empty, bracket-free text between them. */
  predicate MatchAt(s: string, a: nat, b: nat) {
    a + 1 < b < |s| && IsBracket(s[a]) && IsBracket(s[b]) &&
    forall k :: a < k < b ==> !IsBracket(s[k])
  }

  /** The first bracket at or after j, or |s|. */
  function NextBracket(s: string, j: nat): (r: nat)
    requires j <= |s|
    ensures j <= r <= |s| && (r < |s| ==> IsBracket(s[r]))
    ensures forall k :: j <= k < r ==> !IsBracket(s[k])
    decreases |s| - j
  {
    if j == |s| || IsBracket(s[j]) then j else NextBracket(s, j + 1)
  }

  /** The leftmost match starting at or after i, as re.search finds it. */
  function FirstBracketed(s: string, i: nat): (r: Option<(nat, nat)>)
    requires i <= |s|
    ensures r.Some? ==> i <= r.value.0 && MatchAt(s, r.value.0, r.value.1)
    ensures r.Some? ==> forall a, b :: i <= a < r.value.0 ==> !MatchAt(s, a, b)
    ensures r.None? ==> forall a, b :: i <= a ==> !MatchAt(s, a, b)
    decreases |s| - i
  {
    if i == |s| then None
    else
      var j := NextBracket(s, i + 1);
      if IsBracket(s[i]) && i + 1 < j < |s| then
        Some((i, j))
      else
        assert forall b :: !MatchAt(s, i, b);
        FirstBracketed(s, i + 1)
  }

  /** match.group(1): the text between the brackets. */
  function BracketGroup(s: string): Option<string> {
    match FirstBracketed(s, 0)
    case None => None
    case Some((a, b)) => Some(s[a + 1..b])
  }

  // ---------------------------------------------------------------------
  // One line

  /** parts[-1].split(':')[0]. */
  function Genotype(parts: seq<string>): string
    requires |parts| > 0
  {
    Split(Last(parts), ':')[0]
  }

  /** chrom2, pos2 and SV_len of a call. */
  datatype Mate = Mate(chrom2: string, pos2: int, svLen: nat)

  /** The mate columns: for a non-breakend call |SVLEN| (0 without one),
      chrom1 and END (pos1 + SV_len without one); for a breakend SV_len 0
      and the first bracketed chrom:pos of ALT, or chrom1:pos1 when ALT has
      none. */
  function MateOf(alt: string, info: map<string, InfoVal>, chrom1: string, pos1: int): Result<Mate> {
    if SvTypeOf(info) != "BND" then
      var rawLen :- if "SVLEN" in info then IntOf(info["SVLEN"]) else Ok(0);
      var svLen := Abs(rawLen);
      var pos2 :- if "END" in info then IntOf(info["END"]) else Ok(pos1 + svLen);
      Ok(Mate(chrom1, pos2, svLen))
    else
      match BracketGroup(alt)
      case None => Ok(Mate(chrom1, pos1, 0))
      case Some(g) =>
        var dest := Split(g, ':');
        if |dest| < 2 then Err(IndexError)
        else
          var pos2 :- ParseInt(dest[1]);
          Ok(Mate(RemoveAll(dest[0], "chr"), pos2, 0))
  }

  /** The call on one line: None for a '#' line, an error when a column is
      missing or a number does not parse. */
  function ParseLine(line: string, m: Subject, system: string): (r: Result<Option<Call>>)
    ensures StartsWith(line, "#") <==> r == Ok(None)
    ensures r.Ok? && r.value.Some? ==> var c := r.value.value;
      && c.pt == m.pt && c.family == m.family && c.project == m.project
      && c.isProband == m.isProband && c.system == system && c.svLen >= 0
      && (c.svType != "BND" ==> c.chrom2 == c.chrom1)
      && (c.svType == "BND" ==> c.svLen == 0)
  {
    if StartsWith(line, "#") then Ok(None)
    else
      var parts := Split(Strip(line), '\t');
      var chrom1 := RemoveAll(parts[0], "chr");
      if |parts| < 2 then Err(IndexError)
      else
        var pos1 :- ParseInt(parts[1]);
        if |parts| < 8 then Err(IndexError)
        else
          var info := InfoDict(Split(parts[7], ';'));
          var mate :- MateOf(parts[4], info, chrom1, pos1);
          Ok(Some(Call(chrom1, pos1, mate.chrom2, mate.pos2, parts[2], SvTypeOf(info), mate.svLen,
                       Genotype(parts), m.pt, m.family, m.project, m.isProband, system)))
  }

  /** The line parser with the subject and the system fixed. */
  function LineOf(m: Subject, system: string): string -> Result<Option<Call>> {
    line => ParseLine(line, m, system)
  }

  /** A '#' line. */
  function Comment(): string -> bool {
    line => StartsWith(line, "#")
  }

  /** All lines of a file: the calls of its data lines in order, or the
      first error. */
  function ParseLines(lines: seq<string>, m: Subject, system: string): (r: Result<seq<Call>>)
    ensures r.Ok? ==> forall c :: c in r.value ==> c.pt == m.pt && c.system == system
  {
    GatherKeeps(lines, LineOf(m, system), (c: Call) => c.pt == m.pt && c.system == system);
    Gather(lines, LineOf(m, system))
  }

  /** The number of lines that are not '#' lines. */
  function DataLines(lines: seq<string>): nat {
    Kept(lines, Comment())
  }

  /** A file parses when each of its lines does; then there is one call per
      data line. */
  lemma ParseLinesShape(lines: seq<string>, m: Subject, system: string)
    ensures ParseLines(lines, m, system).Ok? <==>
      forall i :: 0 <= i < |lines| ==> ParseLine(lines[i], m, system).Ok?
    ensures ParseLines(lines, m, system).Ok? ==> |ParseLines(lines, m, system).value| == DataLines(lines)
  {
    var f := LineOf(m, system);
    assert forall x :: f(x) == Ok(None) <==> Comment()(x);
    GatherShape(lines, f, Comment());
    assert forall i :: 0 <= i < |lines| ==> f(lines[i]) == ParseLine(lines[i], m, system);
  }

  /** The build's file and the system name it implies: hg38 reads the
      Revio file, hg19 the SII one; None for any other build. */
  function BuildFile(m: Subject, refVer: string): Option<(Option<string>, string)> {
    if refVer == "hg38" then Some((m.hg38Path, "Revio"))
    else if refVer == "hg19" then Some((m.hg19Path, "SII"))
    else None
  }

  /** What parse_single_vcf returns for one subject: the calls of the
      build's file, or no calls at all for an unknown build, a missing path
      or file, or an error on any line. `files` maps the paths that exist
      to their lines. */
  function SubjectCalls(m: Subject, refVer: string, files: map<string, seq<string>>): (rows: seq<Call>)
    ensures refVer != "hg38" && refVer != "hg19" ==> rows == []
    ensures forall c :: c in rows ==> c.pt == m.pt
  {
    match BuildFile(m, refVer)
    case None => []
    case Some((path, system)) =>
      if path.None? || path.value !in files then []
      else match ParseLines(files[path.value], m, system)
        case Ok(calls) => calls
        case Err(_) => []
  }

  /** parse_single_vcf: choose the file for the reference build, then read
      it line by line, giving up on the first line that fails. */
  method ParseSingleVcf(m: Subject, refVer: string, files: map<string, seq<string>>)
      returns (rows: seq<Call>)
    ensures rows == SubjectCalls(m, refVer, files)
  {
    var path: Option<string>;
    var system: string;
    if refVer == "hg38" {
      path, system := m.hg38Path, "Revio";
    } else if refVer == "hg19" {
      path, system := m.hg19Path, "SII";
    } else {
      return [];
    }
    if path.None? || path.value !in files {
      return [];
    }
    var lines := files[path.value];
    rows := [];
    var i := 0;
    while i < |lines|
      invariant 0 <= i <= |lines|
      invariant ParseLines(lines[..i], m, system) == Ok(rows)
    {
      assert lines[..i + 1][..i] == lines[..i];
      var r := ParseLine(lines[i], m, system);
      assert LineOf(m, system)(lines[i]) == r;
      if r.Err? {
        ParseErrorSticks(lines, i + 1, m, system);
        return [];
      }
      if r.value.Some? {
        rows := rows + [r.value.value];
      }
      i := i + 1;
    }
    assert lines[..i] == lines;
  }

  /** Once a line fails, the whole file fails. */
  lemma ParseErrorSticks(lines: seq<string>, n: nat, m: Subject, system: string)
    requires n <= |lines| && ParseLines(lines[..n], m, system).Err?
    ensures ParseLines(lines, m, system).Err?
  {
    GatherErrorSticks(lines, LineOf(m, system), n);
  }

  // ---------------------------------------------------------------------
  // What a parsed call holds

  /** The fields every call takes from its line: chrom1 and pos1 from
      columns 0 and 1, SV_id is column 2, SV_type is INFO's SVTYPE ('UNK'
      without one) and the genotype is the first ':'-field of the last
      column. */
  lemma CallFields(line: string, m: Subject, system: string)
    requires ParseLine(line, m, system).Ok? && ParseLine(line, m, system).value.Some?
    ensures var c := ParseLine(line, m, system).value.value;
      var parts := Split(Strip(line), '\t');
      && |parts| >= 8
      && c.chrom1 == RemoveAll(parts[0], "chr") && ParseInt(parts[1]) == Ok(c.pos1)
      && c.svId == parts[2]
      && c.svType == SvTypeOf(InfoDict(Split(parts[7], ';')))
      && c.genotype == Genotype(parts)
  {
    var parts := Split(Strip(line), '\t');
    assert !StartsWith(line, "#");
    assert |parts| >= 8 && ParseInt(parts[1]).Ok?;
  }

  /** The lines that raise, and so empty the whole file: a data line with
      fewer than two columns or a pos1 that is not an integer, fewer than
      eight columns, a non-integer SVLEN or END on a non-breakend call, or a
      breakend mate without ':' or with a non-integer position. */
  lemma LineFails(line: string, m: Subject, system: string)
    ensures var parts := Split(Strip(line), '\t');
      ParseLine(line, m, system).Err? <==>
        && !StartsWith(line, "#")
        && (|parts| < 8 || ParseInt(parts[1]).Err? ||
            var info := InfoDict(Split(parts[7], ';'));
            if SvTypeOf(info) != "BND" then
              ("SVLEN" in info && IntOf(info["SVLEN"]).Err?) ||
              ("END" in info && IntOf(info["END"]).Err?)
            else
              BracketGroup(parts[4]).Some? &&
              var dest := Split(BracketGroup(parts[4]).value, ':');
              |dest| < 2 || ParseInt(dest[1]).Err?)
  {
  }

  /** A non-breakend call: SV_len = |SVLEN| (0 without one), chrom2 = chrom1,
      and pos2 = END, or pos1 + SV_len without an END. */
  lemma NonBndCall(line: string, m: Subject, system: string)
    requires ParseLine(line, m, system).Ok? && ParseLine(line, m, system).value.Some?
    requires ParseLine(line, m, system).value.value.svType != "BND"
    ensures var c := ParseLine(line, m, system).value.value;
      var parts := Split(Strip(line), '\t');
      var info := InfoDict(Split(parts[7], ';'));
      && |parts| >= 8
      && c.chrom1 == RemoveAll(parts[0], "chr") && c.chrom2 == c.chrom1
      && ParseInt(parts[1]) == Ok(c.pos1)
      && ("SVLEN" !in info ==> c.svLen == 0)
      && ("SVLEN" in info ==> IntOf(info["SVLEN"]).Ok? && c.svLen == Abs(IntOf(info["SVLEN"]).value))
      && ("END" !in info ==> c.pos2 == c.pos1 + c.svLen)
      && ("END" in info ==> IntOf(info["END"]) == Ok(c.pos2))
  {
    var parts := Split(Strip(line), '\t');
    assert !StartsWith(line, "#");
    assert |parts| >= 8 && ParseInt(parts[1]).Ok?;
    var info := InfoDict(Split(parts[7], ';'));
    assert SvTypeOf(info) != "BND";
  }

  /** A breakend call: its mate is the first bracketed chrom:pos of ALT with
      'chr' removed, or the call's own position when ALT has none. */
  lemma BndCall(line: string, m: Subject, system: string)
    requires ParseLine(line, m, system).Ok? && ParseLine(line, m, system).value.Some?
    requires ParseLine(line, m, system).value.value.svType == "BND"
    ensures var c := ParseLine(line, m, system).value.value;
      var parts := Split(Strip(line), '\t');
      && |parts| >= 8 && c.svLen == 0
      && (BracketGroup(parts[4]).None? ==> c.chrom2 == c.chrom1 && c.pos2 == c.pos1)
      && (BracketGroup(parts[4]).Some? ==>
            var dest := Split(BracketGroup(parts[4]).value, ':');
            |dest| >= 2 && c.chrom2 == RemoveAll(dest[0], "chr") && ParseInt(dest[1]) == Ok(c.pos2))
  {
  }

  /** "N[chr2:321[" names mate 2:321. */
  lemma BracketExample()
    ensures BracketGroup("N[chr2:321[") == Some("chr2:321")
  {
    var s := "N[chr2:321[";
    assert !IsBracket(s[0]) && IsBracket(s[1]) && IsBracket(s[10]);
    assert NextBracket(s, 2) == 10;
    assert FirstBracketed(s, 1) == Some((1, 10));
    assert s[2..10] == "chr2:321";
  }
}
