/** The two reference-table extraction scripts (util/extract_gnomAD.py for
    the gnomAD SV sites, util/extract_VCF.py for the TopMed accessioned
    calls): each data line of a VCF is turned into one tab-separated line
    of selected columns and INFO values. The INFO values are taken by prefix
    and, unlike the line's own columns, stay in their variables from one
    line to the next. */
module Extract {
  import opened Wrappers
  import opened Text

  /** extract_gnomAD writes eight fields; extract_VCF also takes the id
      from a DBVARID= entry and writes six. */
  datatype Script = GnomadSites | TopMedVcf

  /** The variables that keep their value across lines; None until a line
      first assigns them. */
  datatype Carried = Carried(pos2: Option<string>, svType: Option<string>,
                             svLen: Option<string>, af: Option<string>)

  const Unset := Carried(None, None, None, None)

  /** The variables while a line's INFO entries are read: chrom2 and SV_id
      restart from the line's own columns. */
  datatype LineVars = LineVars(chrom2: string, svId: string, carried: Carried)

  /** The six prefix tests of one INFO entry, each independent of the
      others. */
  function ApplyEntry(v: LineVars, info: string, s: Script): LineVars {
    var pos2 := if StartsWith(info, "END=") then Some(Drop(info, 4)) else v.carried.pos2;
    var chrom2 := if StartsWith(info, "CHR2") then Drop(info, 5) else v.chrom2;
    var svType := if StartsWith(info, "SVTYPE=") then Some(Drop(info, 7)) else v.carried.svType;
    var svLen := if StartsWith(info, "SVLEN=") then Some(Drop(info, 6)) else v.carried.svLen;
    var af := if StartsWith(info, "AF=") then Some(Drop(info, 3)) else v.carried.af;
    var svId := if s == TopMedVcf && StartsWith(info, "DBVARID=") then Drop(info, 8) else v.svId;
    LineVars(chrom2, svId, Carried(pos2, svType, svLen, af))
  }

  /** The variables after the first n INFO entries. */
  function ScanInfo(v: LineVars, entries: seq<string>, s: Script, n: nat): LineVars
    requires n <= |entries|
    decreases n
  {
    if n == 0 then v else ApplyEntry(ScanInfo(v, entries, s, n - 1), entries[n - 1], s)
  }

  /** The index of the last of the first n entries that starts with p. */
  function LastWith(entries: seq<string>, p: string, n: nat): (r: Option<nat>)
    requires n <= |entries|
    ensures r.None? <==> forall i :: 0 <= i < n ==> !StartsWith(entries[i], p)
    ensures r.Some? ==> r.value < n && StartsWith(entries[r.value], p)
    ensures r.Some? ==> forall i :: r.value < i < n ==> !StartsWith(entries[i], p)
    decreases n
  {
    if n == 0 then None
    else if StartsWith(entries[n - 1], p) then Some(n - 1)
    else LastWith(entries, p, n - 1)
  }

  /** The value an entry with prefix p leaves in its variable: the text
      after the last such entry, or the value before the line. */
  function Latest(entries: seq<string>, p: string, k: nat, n: nat, prior: Option<string>): Option<string>
    requires n <= |entries|
  {
    match LastWith(entries, p, n)
    case Some(i) => Some(Drop(entries[i], k))
    case None => prior
  }

  /** Each variable holds the text after the last entry carrying its
      prefix; a variable no entry names keeps its value. */
  lemma {:induction false} ScanInfoLatest(v: LineVars, entries: seq<string>, s: Script, n: nat)
    requires n <= |entries|
    ensures var w := ScanInfo(v, entries, s, n);
      && w.carried.pos2 == Latest(entries, "END=", 4, n, v.carried.pos2)
      && w.carried.svType == Latest(entries, "SVTYPE=", 7, n, v.carried.svType)
      && w.carried.svLen == Latest(entries, "SVLEN=", 6, n, v.carried.svLen)
      && w.carried.af == Latest(entries, "AF=", 3, n, v.carried.af)
      && Some(w.chrom2) == Latest(entries, "CHR2", 5, n, Some(v.chrom2))
      && (s == GnomadSites ==> w.svId == v.svId)
      && (s == TopMedVcf ==> Some(w.svId) == Latest(entries, "DBVARID=", 8, n, Some(v.svId)))
    decreases n
  {
    if n > 0 {
      ScanInfoLatest(v, entries, s, n - 1);
    }
  }

  /** The fields written for a line, None when a variable they name was
      never assigned (NameError). */
  function Fields(tmp: seq<string>, v: LineVars, s: Script): (r: Option<seq<string>>)
    requires |tmp| >= 2
    ensures r.Some? ==> |r.value| == (if s == GnomadSites then 8 else 6)
    ensures r.Some? ==> r.value[0] == tmp[0] && r.value[1] == tmp[1]
  {
    var c := v.carried;
    match s
    case GnomadSites =>
      if c.pos2.Some? && c.svType.Some? && c.svLen.Some? && c.af.Some? then
        Some([tmp[0], tmp[1], v.chrom2, c.pos2.value, c.svType.value, v.svId, c.svLen.value, c.af.value])
      else None
    case TopMedVcf =>
      if c.pos2.Some? && c.svType.Some? && c.af.Some? then
        Some([tmp[0], tmp[1], c.pos2.value, c.svType.value, v.svId, c.af.value])
      else None
  }

  /** What one line does: nothing for a '#' line, else one written line
      and the carried variables after it. */
  datatype LineOut = Skip | Written(text: string, carried: Carried)

  /** A data line split into its columns: IndexError when it has fewer
      than eight, NameError when a written variable is still unassigned. */
  function ExtractCols(tmp: seq<string>, c: Carried, s: Script): (r: Result<LineOut>)
    ensures r != Ok(Skip)
  {
    if |tmp| < 8 then Err(IndexError)
    else
      var entries := Split(tmp[7], ';');
      var v := ScanInfo(LineVars(tmp[0], tmp[2], c), entries, s, |entries|);
      match Fields(tmp, v, s)
      case None => Err(NameError)
      case Some(fs) => Ok(Written(Join(fs, "\t") + "\n", v.carried))
  }

  /** One line: nothing for a '#' line, else its columns at the tabs of the
      stripped line. */
  function ExtractLine(line: string, c: Carried, s: Script): (r: Result<LineOut>)
    ensures r == Ok(Skip) <==> StartsWith(line, "#")
  {
    if StartsWith(line, "#") then Ok(Skip) else ExtractCols(Split(Strip(line), '\t'), c, s)
  }

  /** The output so far, the carried variables and the error that ended
      the script, if any. */
  datatype Run = Run(written: seq<string>, carried: Carried, err: Option<Error>)

  /** The effect of one line on the carried variables, for the script s. */
  function LineStep(s: Script): (string, Carried) -> Result<LineOut> {
    (line, c) => ExtractLine(line, c, s)
  }

  /** The run after one more line whose step gave res. */
  function Next(r: Run, res: Result<LineOut>): Run {
    match res
    case Err(e) => Run(r.written, r.carried, Some(e))
    case Ok(Skip) => r
    case Ok(Written(t, c)) => Run(r.written + [t], c, None)
  }

  /** A script after its first n input lines, for its per-line step: the
      lines written before an error stay written, and nothing runs after
      it. */
  function RunWith(lines: seq<string>, step: (string, Carried) -> Result<LineOut>, n: nat): Run
    requires n <= |lines|
    decreases n
  {
    if n == 0 then Run([], Unset, None)
    else
      var r := RunWith(lines, step, n - 1);
      if r.err.Some? then r else Next(r, step(lines[n - 1], r.carried))
  }

  /** One more line: the run continues with the step's result. */
  lemma RunWithNext(lines: seq<string>, step: (string, Carried) -> Result<LineOut>, i: nat, res: Result<LineOut>)
    requires i < |lines| && RunWith(lines, step, i).err.None?
    requires res == step(lines[i], RunWith(lines, step, i).carried)
    ensures RunWith(lines, step, i + 1) == Next(RunWith(lines, step, i), res)
  {
  }

  function RunUpTo(lines: seq<string>, s: Script, n: nat): Run
    requires n <= |lines|
  {
    RunWith(lines, LineStep(s), n)
  }

  /** Once an error ends the script, later lines change nothing. */
  lemma {:induction false} RunStopsAtError(lines: seq<string>, step: (string, Carried) -> Result<LineOut>, i: nat, n: nat)
    requires i <= n <= |lines| && RunWith(lines, step, i).err.Some?
    ensures RunWith(lines, step, n) == RunWith(lines, step, i)
    decreases n
  {
    if n > i {
      RunStopsAtError(lines, step, i, n - 1);
    }
  }

  /** The body of the line loop: the '#' test, the column split and the
      pass over the INFO entries. */
  method ReadLine(line: string, carried: Carried, s: Script) returns (res: Result<LineOut>)
    ensures res == ExtractLine(line, carried, s)
  {
    if StartsWith(line, "#") {
      return Ok(Skip);
    }
    var tmp := Split(Strip(line), '\t');
    if |tmp| < 8 {
      return Err(IndexError);
    }
    var entries := Split(tmp[7], ';');
    var v := LineVars(tmp[0], tmp[2], carried);
    for j := 0 to |entries|
      invariant v == ScanInfo(LineVars(tmp[0], tmp[2], carried), entries, s, j)
    {
      v := ApplyEntry(v, entries[j], s);
    }
    var fs := Fields(tmp, v, s);
    if fs.None? {
      return Err(NameError);
    }
    return Ok(Written(Join(fs.value, "\t") + "\n", v.carried));
  }

  /** The script: one pass over the lines; an error ends it. */
  method ExtractFile(lines: seq<string>, s: Script) returns (written: seq<string>, err: Option<Error>)
    ensures written == RunUpTo(lines, s, |lines|).written
    ensures err == RunUpTo(lines, s, |lines|).err
  {
    written := [];
    err := None;
    var carried := Unset;
    for i := 0 to |lines|
      invariant RunWith(lines, LineStep(s), i) == Run(written, carried, None)
    {
      var res := ReadLine(lines[i], carried, s);
      assert LineStep(s)(lines[i], carried) == res;
      RunWithNext(lines, LineStep(s), i, res);
      match res
      case Err(e) =>
        err := Some(e);
        RunStopsAtError(lines, LineStep(s), i + 1, |lines|);
        return;
      case Ok(Skip) =>
      case Ok(Written(t, c)) =>
        written := written + [t];
        carried := c;
    }
  }

  // ---------------------------------------------------------------------
  // Properties of the output

  /** The number of lines among the first n that are not '#' lines. */
  function DataLines(lines: seq<string>, n: nat): (r: nat)
    requires n <= |lines|
    ensures r <= n
  {
    if n == 0 then 0
    else DataLines(lines, n - 1) + (if StartsWith(lines[n - 1], "#") then 0 else 1)
  }

  /** A step that does nothing exactly on '#' lines. */
  ghost predicate SkipsComments(step: (string, Carried) -> Result<LineOut>) {
    forall line, c :: step(line, c) == Ok(Skip) <==> StartsWith(line, "#")
  }

  lemma LineStepSkipsComments(s: Script)
    ensures SkipsComments(LineStep(s))
  {
  }

  /** Without an error, a step that skips exactly the '#' lines writes one
      line per data line. */
  lemma {:induction false} OneLinePerDataLineWith(lines: seq<string>, step: (string, Carried) -> Result<LineOut>, n: nat)
    requires n <= |lines| && SkipsComments(step) && RunWith(lines, step, n).err.None?
    ensures |RunWith(lines, step, n).written| == DataLines(lines, n)
    decreases n
  {
    if n > 0 {
      OneLinePerDataLineWith(lines, step, n - 1);
    }
  }

  /** Without an error, every data line writes exactly one line and a '#'
      line writes none. */
  lemma OneLinePerDataLine(lines: seq<string>, s: Script, n: nat)
    requires n <= |lines| && RunUpTo(lines, s, n).err.None?
    ensures |RunUpTo(lines, s, n).written| == DataLines(lines, n)
  {
    LineStepSkipsComments(s);
    OneLinePerDataLineWith(lines, LineStep(s), n);
  }

  /** Every character of a piece of a split occurs in the text. */
  lemma {:induction false} SplitPiecesFrom(s: string, d: char)
    ensures forall i, x :: 0 <= i < |Split(s, d)| && x in Split(s, d)[i] ==> x in s
    decreases |s|
  {
    if |s| > 0 {
      SplitPiecesFrom(s[1..], d);
      var rest := Split(s[1..], d);
      assert forall x :: x in s[1..] ==> x in s;
      if s[0] != d {
        var r := [[s[0]] + rest[0]] + rest[1..];
        assert Split(s, d) == r;
        forall i, x | 0 <= i < |r| && x in r[i] ensures x in s {
          if i > 0 {
            assert r[i] == rest[i];
          } else if x != s[0] {
            assert x in rest[0];
          }
        }
      }
    }
  }

  /** An unassigned variable, or one whose text holds no tab. */
  predicate TabFree(o: Option<string>) {
    o.Some? ==> '\t' !in o.value
  }

  /** What a tab-free entry or prior value leaves in a variable is
      tab-free. */
  lemma LatestTabFree(entries: seq<string>, p: string, k: nat, n: nat, prior: Option<string>)
    requires n <= |entries| && TabFree(prior)
    requires forall i :: 0 <= i < |entries| ==> '\t' !in entries[i]
    ensures TabFree(Latest(entries, p, k, n, prior))
  {
  }

  /** A written line is its fields joined by tabs, and splitting it at the
      tabs gives the fields back: eight of them for the gnomAD sites
      (chrom1, pos1, chrom2, pos2, SV_type, SV_id, SV_len, af), six for
      the TopMed calls (chrom1, pos1, pos2, SV_type, SV_id, af). */
  lemma WrittenLineFields(tmp: seq<string>, c: Carried, s: Script)
    requires ExtractCols(tmp, c, s).Ok? && ExtractCols(tmp, c, s).value.Written?
    requires forall i :: 0 <= i < |tmp| ==> '\t' !in tmp[i]
    requires TabFree(c.pos2) && TabFree(c.svType) && TabFree(c.svLen) && TabFree(c.af)
    ensures var t := ExtractCols(tmp, c, s).value.text;
      exists fs :: |fs| == (if s == GnomadSites then 8 else 6) &&
        fs[0] == tmp[0] && fs[1] == tmp[1] &&
        t == Join(fs, "\t") + "\n" && Split(Join(fs, "\t"), '\t') == fs
  {
    var entries := Split(tmp[7], ';');
    var v0 := LineVars(tmp[0], tmp[2], c);
    var v := ScanInfo(v0, entries, s, |entries|);
    var fs := Fields(tmp, v, s).value;
    SplitPiecesFrom(tmp[7], ';');
    assert forall i :: 0 <= i < |entries| ==> '\t' !in entries[i] by {
      assert '\t' !in tmp[7];
    }
    ScanInfoLatest(v0, entries, s, |entries|);
    var n := |entries|;
    LatestTabFree(entries, "END=", 4, n, c.pos2);
    LatestTabFree(entries, "SVTYPE=", 7, n, c.svType);
    LatestTabFree(entries, "SVLEN=", 6, n, c.svLen);
    LatestTabFree(entries, "AF=", 3, n, c.af);
    LatestTabFree(entries, "CHR2", 5, n, Some(tmp[0]));
    LatestTabFree(entries, "DBVARID=", 8, n, Some(tmp[2]));
    FieldsTabFree(tmp, v, s);
    SplitJoin(fs, '\t');
  }

  /** The fields of a line whose columns and variables hold no tab hold
      no tab. */
  lemma FieldsTabFree(tmp: seq<string>, v: LineVars, s: Script)
    requires |tmp| >= 2 && '\t' !in tmp[0] && '\t' !in tmp[1]
    requires '\t' !in v.chrom2 && '\t' !in v.svId
    requires TabFree(v.carried.pos2) && TabFree(v.carried.svType) && TabFree(v.carried.svLen) && TabFree(v.carried.af)
    ensures Fields(tmp, v, s).Some? ==> forall i :: 0 <= i < |Fields(tmp, v, s).value| ==> '\t' !in Fields(tmp, v, s).value[i]
  {
  }

  /** On the first data line nothing is carried yet: the line raises
      NameError exactly when it has its eight columns but lacks an END=,
      SVTYPE= or AF= entry, or (gnomAD) an SVLEN= entry. */
  lemma FirstLineNeedsEntries(line: string, s: Script)
    requires !StartsWith(line, "#")
    ensures var tmp := Split(Strip(line), '\t');
      ExtractLine(line, Unset, s) == Err(NameError) <==>
        |tmp| >= 8 &&
        var entries := Split(tmp[7], ';');
        (LastWith(entries, "END=", |entries|).None? || LastWith(entries, "SVTYPE=", |entries|).None? ||
         LastWith(entries, "AF=", |entries|).None? ||
         (s == GnomadSites && LastWith(entries, "SVLEN=", |entries|).None?))
  {
    var tmp := Split(Strip(line), '\t');
    if |tmp| >= 8 {
      var entries := Split(tmp[7], ';');
      ScanInfoLatest(LineVars(tmp[0], tmp[2], Unset), entries, s, |entries|);
    }
  }

  /** A value a line does not assign is written as the one the previous
      lines left: the pos2 written is the last END= entry of the line, or
      the carried pos2 when the line has none. */
  lemma Pos2CarriesOver(line: string, c: Carried, s: Script)
    requires ExtractLine(line, c, s).Ok? && ExtractLine(line, c, s).value.Written?
    ensures var tmp := Split(Strip(line), '\t');
      var entries := Split(tmp[7], ';');
      ExtractLine(line, c, s).value.carried.pos2 == Latest(entries, "END=", 4, |entries|, c.pos2) &&
      ExtractLine(line, c, s).value.carried.pos2.Some?
  {
    var tmp := Split(Strip(line), '\t');
    var entries := Split(tmp[7], ';');
    ScanInfoLatest(LineVars(tmp[0], tmp[2], c), entries, s, |entries|);
  }
}
