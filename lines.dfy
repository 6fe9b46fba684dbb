/** Reading a file line by line, as the VCF readers do: each line gives a
    value, nothing (a header line), or an exception that abandons the whole
    file. Stated once for any line parser. */
module Lines {
  import opened Wrappers

  /** The values the parser keeps, in line order, or the error of the first
      line it fails on. */
  function Gather<A, B>(xs: seq<A>, f: A -> Result<Option<B>>): (r: Result<seq<B>>)
    decreases |xs|
  {
    if |xs| == 0 then Ok([])
    else
      var init :- Gather(xs[..|xs| - 1], f);
      var c :- f(xs[|xs| - 1]);
      match c
      case None => Ok(init)
      case Some(b) => Ok(init + [b])
  }

  /** The number of lines that `skip` does not hold of. */
  function Kept<A>(xs: seq<A>, skip: A -> bool): (n: nat)
    ensures n <= |xs|
    decreases |xs|
  {
    if |xs| == 0 then 0 else Kept(xs[..|xs| - 1], skip) + (if skip(xs[|xs| - 1]) then 0 else 1)
  }

  /** Once a line fails, the file fails with that line's error. */
  lemma {:induction false} GatherErrorSticks<A, B>(xs: seq<A>, f: A -> Result<Option<B>>, n: nat)
    requires n <= |xs| && Gather(xs[..n], f).Err?
    ensures Gather(xs, f) == Gather(xs[..n], f)
    decreases |xs| - n
  {
    if n < |xs| {
      assert xs[..n + 1][..n] == xs[..n];
      GatherErrorSticks(xs, f, n + 1);
    } else {
      assert xs[..n] == xs;
    }
  }

  /** A file is read when every line parses, and then holds one value per
      line the parser does not skip. */
  lemma {:induction false} GatherShape<A, B>(xs: seq<A>, f: A -> Result<Option<B>>, skip: A -> bool)
    requires forall x :: f(x) == Ok(None) <==> skip(x)
    ensures Gather(xs, f).Ok? <==> forall i :: 0 <= i < |xs| ==> f(xs[i]).Ok?
    ensures Gather(xs, f).Ok? ==> |Gather(xs, f).value| == Kept(xs, skip)
    decreases |xs|
  {
    if |xs| > 0 {
      var init := xs[..|xs| - 1];
      GatherShape(init, f, skip);
      assert forall i :: 0 <= i < |init| ==> init[i] == xs[i];
      if Gather(init, f).Ok? && f(xs[|xs| - 1]).Ok? {
        assert skip(xs[|xs| - 1]) <==> f(xs[|xs| - 1]).value.None?;
      }
    }
  }

  /** Whatever the parser promises of each value it keeps holds of every
      value read. */
  lemma {:induction false} GatherKeeps<A, B>(xs: seq<A>, f: A -> Result<Option<B>>, keep: B -> bool)
    requires forall x :: f(x).Ok? && f(x).value.Some? ==> keep(f(x).value.value)
    ensures Gather(xs, f).Ok? ==> forall b :: b in Gather(xs, f).value ==> keep(b)
    decreases |xs|
  {
    if |xs| > 0 {
      GatherKeeps(xs[..|xs| - 1], f, keep);
    }
  }
}
