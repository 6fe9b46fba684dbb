/** Chromosome-name normalisation: the 'chr' prefix that UCSC-style names
    carry and Ensembl-style names lack. The pipeline has several copies of
    the same two helpers (modify_chr / modify_chrom and remove_chr); they
    are modelled once here. */
module ChromNames {
  import opened Text

  const Prefix: string := "chr"

  /** modify_chr: prefix 'chr' exactly when the name does not start with it. */
  function ModifyChr(v: string): (r: string)
    ensures StartsWith(r, Prefix)
    ensures r == v || r == Prefix + v
    ensures r == v <==> StartsWith(v, Prefix)
  {
    if StartsWith(v, Prefix) then v else Prefix + v
  }

  /** remove_chr: for a name starting with 'chr', Python's value.split('chr')[1],
      i.e. the text between the leading 'chr' and the next 'chr' (or the end);
      any other name is returned unchanged. */
  function RemoveChr(v: string): (r: string)
    ensures !StartsWith(v, Prefix) ==> r == v
    ensures StartsWith(v, Prefix) ==> |r| + 3 <= |v| && StartsWith(v[3..], r)
    ensures StartsWith(v, Prefix) ==>
      !Contains(r, Prefix) && (|r| == |v| - 3 || StartsWith(v[3 + |r|..], Prefix))
  {
    if StartsWith(v, Prefix) then
      UntilSubFree(v[3..], Prefix);
      UntilSubStops(v[3..], Prefix);
      assert v[3..][|UntilSub(v[3..], Prefix)|..] == v[3 + |UntilSub(v[3..], Prefix)|..];
      UntilSub(v[3..], Prefix)
    else v
  }

  /** Adding the prefix twice is the same as adding it once. */
  lemma ModifyChrIdempotent(v: string)
    ensures ModifyChr(ModifyChr(v)) == ModifyChr(v)
    ensures StartsWith(ModifyChr(v), Prefix)
  {
  }

  lemma {:induction false} UntilSubAbsent(s: string, p: string)
    requires |p| > 0 && !Contains(s, p)
    ensures UntilSub(s, p) == s
    decreases |s|
  {
    if |s| >= |p| {
      assert !OccursAt(s, p, 0);
      assert s[0..0 + |p|] == s[..|p|];
      ContainsTail(s, p);
      UntilSubAbsent(s[1..], p);
      assert [s[0]] + s[1..] == s;
    }
  }

  /** remove_chr undoes modify_chr on any name in which 'chr' does not occur. */
  lemma RemoveModifyRoundTrip(s: string)
    requires !Contains(s, Prefix)
    ensures RemoveChr(ModifyChr(s)) == s
  {
    assert !StartsWith(s, Prefix) by {
      assert !OccursAt(s, Prefix, 0);
    }
    assert (Prefix + s)[3..] == s;
    UntilSubAbsent(s, Prefix);
  }

  /** modify_chr undoes remove_chr on a 'chr' name with a single 'chr'. */
  lemma ModifyRemoveRoundTrip(v: string)
    requires StartsWith(v, Prefix) && !Contains(v[3..], Prefix)
    ensures ModifyChr(RemoveChr(v)) == v
  {
    UntilSubAbsent(v[3..], Prefix);
    var r := v[3..];
    assert !StartsWith(r, Prefix) by {
      assert !OccursAt(r, Prefix, 0);
    }
    assert Prefix + r == v;
  }

  /** Where the name carries a second 'chr', remove_chr keeps only the text
      up to it: "chr1chr2" becomes "1". */
  lemma RemoveChrStopsAtSecond()
    ensures RemoveChr("chr1chr2") == "1"
  {
    assert StartsWith("chr1chr2", Prefix);
    assert "chr1chr2"[3..] == "1chr2";
    assert "1chr2"[0] != Prefix[0];
    assert "1chr2"[..3] != Prefix;
    assert "1chr2"[1..] == "chr2";
    assert "chr2"[..3] == Prefix;
  }
}
