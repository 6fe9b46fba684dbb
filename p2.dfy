/** Reading the long-read (P2) structural-variant calls of a cohort: every
    subject's gzipped VCF is parsed by fixed column and character offsets,
    and calls touching a known artifact window on chromosome 2 are dropped
    (helper/P2_cluster.py, get_P2_df up to building the table). */
module P2Calls {
  import opened Wrappers
  import opened Text
  import opened Calls
  import opened Lines

  /** One metadata row: the subject and the path of its call file, None
      when the path cell is empty (NaN). */
  datatype Subject = Subject(pt: string, family: string, project: string, isProband: bool,
                             system: string, path: Option<string>)

  // ---------------------------------------------------------------------
  // The artifact window

  /** The artifact window on chromosome 2 of a reference build, inclusive
      at both ends; no window for any other build. */
  function ArtifactWindow(refVer: string): Option<(int, int)> {
    if refVer == "hg19" then Some((33141211, 33141696))
    else if refVer == "hg38" then Some((32916144, 32916629))
    else None
  }

  /** The call lies on chromosome 2 at both ends and one of its ends falls
      in the window. */
  predicate InArtifact(refVer: string, c: Call) {
    match ArtifactWindow(refVer)
    case None => false
    case Some(w) =>
      && c.chrom1 == "2" && c.chrom2 == "2"
      && (w.0 <= c.pos1 <= w.1 || w.0 <= c.pos2 <= w.1)
  }

  /** Both windows are 486 bases wide and only hg19 and hg38 have one. */
  lemma ArtifactWindows(refVer: string)
    ensures ArtifactWindow(refVer).Some? <==> refVer == "hg19" || refVer == "hg38"
    ensures ArtifactWindow(refVer).Some? ==> ArtifactWindow(refVer).value.1 - ArtifactWindow(refVer).value.0 == 485
  {
  }

  // ---------------------------------------------------------------------
  // One line

  /** The call one line describes, before the artifact filter: None for a
      '#' line; IndexError when a column or INFO entry is missing or INFO
      entry 6 holds no 'chr'; ValueError when a number does not parse. */
  function ReadCall(line: string, m: Subject): (r: Result<Option<Call>>)
    ensures StartsWith(line, "#") <==> r == Ok(None)
    ensures r.Ok? && r.value.Some? ==> var c := r.value.value;
      && c.pt == m.pt && c.family == m.family && c.project == m.project
      && c.isProband == m.isProband && c.system == m.system
      && !Contains(c.chrom2, "chr")
  {
    if StartsWith(line, "#") then Ok(None)
    else
      var parts := Split(Strip(line), '\t');
      var chrom1 := Drop(parts[0], 3);
      if |parts| < 2 then Err(IndexError)
      else
        var pos1 :- ParseInt(parts[1]);
        if |parts| < 8 then Err(IndexError)
        else
          var svId := parts[2];
          var info := Split(parts[7], ';');
          if |info| < 4 then Err(IndexError)
          else
            var svType := Drop(info[3], 7);
            var svLen :- ParseInt(Drop(info[2], 7));
            if |info| < 6 then Err(IndexError)
            else
              var chrom2 :- SecondPiece(Drop(info[5], 5), "chr");
              if |info| < 7 then Err(IndexError)
              else
                var pos2 :- ParseInt(Last(Split(info[6], '=')));
                var gt := Split(Last(parts), ':')[0];
                UntilSubFree(AfterFirst(Drop(info[5], 5), "chr").value, "chr");
                Ok(Some(Call(chrom1, pos1, chrom2, pos2, svId, svType, svLen, gt,
                             m.pt, m.family, m.project, m.isProband, m.system)))
  }

  /** The row a line contributes: the call unless it lies in the artifact
      window. */
  function ParseLine(line: string, m: Subject, refVer: string): (r: Result<Option<Call>>)
    ensures r.Ok? && r.value.Some? ==> r.value.value.pt == m.pt && !InArtifact(refVer, r.value.value)
  {
    var c :- ReadCall(line, m);
    if c.Some? && InArtifact(refVer, c.value) then Ok(None) else Ok(c)
  }

  /** A line is dropped exactly when it is a '#' line or its call lies in
      the artifact window; any other call is kept unchanged. */
  lemma ArtifactSkip(line: string, m: Subject, refVer: string)
    requires ReadCall(line, m).Ok?
    ensures ParseLine(line, m, refVer) == Ok(None) <==>
      StartsWith(line, "#") || InArtifact(refVer, ReadCall(line, m).value.value)
    ensures ReadCall(line, m).value.Some? && !InArtifact(refVer, ReadCall(line, m).value.value) ==>
      ParseLine(line, m, refVer) == ReadCall(line, m)
  {
  }

  /** The positional fields of a kept call. */
  lemma CallFields(line: string, m: Subject, refVer: string)
    requires ParseLine(line, m, refVer).Ok? && ParseLine(line, m, refVer).value.Some?
    ensures var c := ParseLine(line, m, refVer).value.value;
      var parts := Split(Strip(line), '\t');
      && |parts| >= 8
      && var info := Split(parts[7], ';');
      && |info| >= 7
      && c.chrom1 == Drop(parts[0], 3)
      && ParseInt(parts[1]) == Ok(c.pos1)
      && c.svId == parts[2]
      && c.svType == Drop(info[3], 7)
      && ParseInt(Drop(info[2], 7)) == Ok(c.svLen)
      && SecondPiece(Drop(info[5], 5), "chr") == Ok(c.chrom2)
      && ParseInt(Last(Split(info[6], '='))) == Ok(c.pos2)
      && c.genotype == Split(Last(parts), ':')[0]
  {
  }

  // ---------------------------------------------------------------------
  // A file and the cohort

  /** The rows of one file in line order, or the error of its first
      failing line. */
  function ParseLines(lines: seq<string>, m: Subject, refVer: string): (r: Result<seq<Call>>)
    ensures r.Ok? ==> forall c :: c in r.value ==> c.pt == m.pt && !InArtifact(refVer, c)
  {
    GatherKeeps(lines, LineOf(m, refVer), (c: Call) => c.pt == m.pt && !InArtifact(refVer, c));
    Gather(lines, LineOf(m, refVer))
  }

  /** The line parser with the subject and the build fixed. */
  function LineOf(m: Subject, refVer: string): string -> Result<Option<Call>> {
    line => ParseLine(line, m, refVer)
  }

  /** The rows of the first subjects in metadata order; a subject without a
      path adds nothing, a path that does not exist raises. `files` maps the
      paths that exist to their lines. */
  function ReadSubjects(meta: seq<Subject>, refVer: string, files: map<string, seq<string>>)
    : (r: Result<seq<Call>>)
    ensures r.Ok? ==> forall c :: c in r.value ==> !InArtifact(refVer, c)
    decreases |meta|
  {
    if |meta| == 0 then Ok([])
    else
      var init :- ReadSubjects(meta[..|meta| - 1], refVer, files);
      var m := Last(meta);
      match m.path
      case None => Ok(init)
      case Some(p) =>
        if p !in files then Err(FileNotFound)
        else
          var calls :- ParseLines(files[p], m, refVer);
          Ok(init + calls)
  }

  /** The whole read: a build other than hg19/hg38 leaves the size table
      unassigned, so reading it raises NameError before any file is
      opened. */
  function ReadAll(meta: seq<Subject>, refVer: string, files: map<string, seq<string>>)
    : (r: Result<seq<Call>>)
    ensures refVer != "hg19" && refVer != "hg38" ==> r == Err(NameError)
  {
    if refVer != "hg19" && refVer != "hg38" then Err(NameError)
    else ReadSubjects(meta, refVer, files)
  }

  /** Once a line fails, the file fails with that line's error. */
  lemma LineErrorSticks(lines: seq<string>, n: nat, m: Subject, refVer: string)
    requires n <= |lines| && ParseLines(lines[..n], m, refVer).Err?
    ensures ParseLines(lines, m, refVer) == ParseLines(lines[..n], m, refVer)
  {
    GatherErrorSticks(lines, LineOf(m, refVer), n);
  }

  /** Once a subject fails, the read fails with that subject's error. */
  lemma {:induction false} SubjectErrorSticks(meta: seq<Subject>, n: nat, refVer: string,
                                             files: map<string, seq<string>>)
    requires n <= |meta| && ReadSubjects(meta[..n], refVer, files).Err?
    ensures ReadSubjects(meta, refVer, files) == ReadSubjects(meta[..n], refVer, files)
    decreases |meta| - n
  {
    if n < |meta| {
      assert meta[..n + 1][..n] == meta[..n];
      SubjectErrorSticks(meta, n + 1, refVer, files);
    } else {
      assert meta[..n] == meta;
    }
  }

  /** The inner loop of get_P2_df: the lines of one file in order. */
  method ReadFile(lines: seq<string>, m: Subject, refVer: string) returns (r: Result<seq<Call>>)
    ensures r == ParseLines(lines, m, refVer)
  {
    var calls: seq<Call> := [];
    var j := 0;
    while j < |lines|
      invariant 0 <= j <= |lines|
      invariant ParseLines(lines[..j], m, refVer) == Ok(calls)
    {
      assert lines[..j + 1][..j] == lines[..j];
      var c := ParseLine(lines[j], m, refVer);
      assert LineOf(m, refVer)(lines[j]) == c;
      if c.Err? {
        LineErrorSticks(lines, j + 1, m, refVer);
        return Err(c.error);
      }
      if c.value.Some? {
        calls := calls + [c.value.value];
      }
      j := j + 1;
    }
    assert lines[..j] == lines;
    r := Ok(calls);
  }

  /** get_P2_df's reading loop: subject by subject in metadata order. */
  method GetP2Rows(meta: seq<Subject>, refVer: string, files: map<string, seq<string>>)
      returns (r: Result<seq<Call>>)
    ensures r == ReadAll(meta, refVer, files)
  {
    if refVer != "hg19" && refVer != "hg38" {
      return Err(NameError);
    }
    var rows: seq<Call> := [];
    var i := 0;
    while i < |meta|
      invariant 0 <= i <= |meta|
      invariant ReadSubjects(meta[..i], refVer, files) == Ok(rows)
    {
      var pre := meta[..i + 1];
      assert pre[..i] == meta[..i];
      var m := meta[i];
      assert Last(pre) == m;
      if m.path.Some? {
        if m.path.value !in files {
          assert ReadSubjects(pre, refVer, files) == Err(FileNotFound);
          SubjectErrorSticks(meta, i + 1, refVer, files);
          return Err(FileNotFound);
        }
        var calls := ReadFile(files[m.path.value], m, refVer);
        if calls.Err? {
          assert ReadSubjects(pre, refVer, files) == Err(calls.error);
          SubjectErrorSticks(meta, i + 1, refVer, files);
          return Err(calls.error);
        }
        assert ReadSubjects(pre, refVer, files) == Ok(rows + calls.value);
        rows := rows + calls.value;
      } else {
        assert ReadSubjects(pre, refVer, files) == Ok(rows);
      }
      i := i + 1;
    }
    assert meta[..i] == meta;
    r := Ok(rows);
  }

  /** The read succeeds exactly when every listed file exists and every
      line of it parses. */
  lemma {:induction false} ReadSubjectsOk(meta: seq<Subject>, refVer: string,
                                         files: map<string, seq<string>>)
    ensures ReadSubjects(meta, refVer, files).Ok? <==>
      forall k :: 0 <= k < |meta| && meta[k].path.Some? ==>
        meta[k].path.value in files && ParseLines(files[meta[k].path.value], meta[k], refVer).Ok?
    decreases |meta|
  {
    if |meta| > 0 {
      var init := meta[..|meta| - 1];
      ReadSubjectsOk(init, refVer, files);
      assert forall k :: 0 <= k < |init| ==> init[k] == meta[k];
    }
  }

  /** Every row comes from a subject of the metadata that has a path. */
  lemma {:induction false} RowsFromSubjects(meta: seq<Subject>, refVer: string,
                                           files: map<string, seq<string>>, c: Call)
    requires ReadSubjects(meta, refVer, files).Ok? && c in ReadSubjects(meta, refVer, files).value
    ensures exists k :: 0 <= k < |meta| && meta[k].path.Some? && meta[k].pt == c.pt
    decreases |meta|
  {
    var init := meta[..|meta| - 1];
    var m := Last(meta);
    var rest := ReadSubjects(init, refVer, files).value;
    if c in rest {
      RowsFromSubjects(init, refVer, files, c);
      var k :| 0 <= k < |init| && init[k].path.Some? && init[k].pt == c.pt;
      assert meta[k] == init[k];
    } else {
      assert meta[|meta| - 1] == m;
    }
  }
}
