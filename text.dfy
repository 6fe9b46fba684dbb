/** Python string operations used by the pipeline, written out on seq<char>:
    str.split with a one-character separator, str.join, str.strip,
    str.replace(p, ''), str.startswith, int(), str() of an integer,
    str.zfill and str.upper. */
module Text {
  import opened Wrappers

  predicate StartsWith(s: string, p: string) {
    |p| <= |s| && s[..|p|] == p
  }

  /** p occurs somewhere in s. */
  predicate Contains(s: string, p: string) {
    exists i :: 0 <= i <= |s| && OccursAt(s, p, i)
  }

  /** p occurs in s starting at index i. */
  predicate OccursAt(s: string, p: string, i: nat) {
    i + |p| <= |s| && s[i..i + |p|] == p
  }

  // ---------------------------------------------------------------------
  // split / join on a single-character separator

  /** Python's s.split(d): the pieces between occurrences of d, in order. */
  function Split(s: string, d: char): (r: seq<string>)
    ensures |r| >= 1
    ensures forall i :: 0 <= i < |r| ==> d !in r[i]
    decreases |s|
  {
    if |s| == 0 then [""]
    else
      var rest := Split(s[1..], d);
      if s[0] == d then [""] + rest
      else [[s[0]] + rest[0]] + rest[1..]
  }

  /** Python's sep.join(parts). */
  function Join(parts: seq<string>, sep: string): string
    decreases |parts|
  {
    if |parts| == 0 then ""
    else if |parts| == 1 then parts[0]
    else parts[0] + sep + Join(parts[1..], sep)
  }

  /** Two lists with the same first pieces and tails of equal joins have
      equal joins. */
  lemma {:induction false} JoinSameTail(p: seq<string>, t1: seq<string>, t2: seq<string>, sep: string)
    requires |t1| >= 1 && |t2| >= 1 && Join(t1, sep) == Join(t2, sep)
    ensures Join(p + t1, sep) == Join(p + t2, sep)
    decreases |p|
  {
    if |p| > 0 {
      JoinSameTail(p[1..], t1, t2, sep);
      assert (p + t1)[1..] == p[1..] + t1;
      assert (p + t2)[1..] == p[1..] + t2;
    } else {
      assert p + t1 == t1 && p + t2 == t2;
    }
  }

  /** Joining one more piece adds a separator and the piece. */
  lemma {:induction false} JoinSnoc(parts: seq<string>, x: string, sep: string)
    requires |parts| >= 1
    ensures Join(parts + [x], sep) == Join(parts, sep) + sep + x
    decreases |parts|
  {
    if |parts| == 1 {
      assert parts + [x] == [parts[0], x];
      assert [parts[0], x][1..] == [x];
    } else {
      JoinSnoc(parts[1..], x, sep);
      assert (parts + [x])[1..] == parts[1..] + [x];
    }
  }

  /** Each piece followed by the separator, Python's
      ''.join(p + sep for p in parts). */
  function Terminated(parts: seq<string>, sep: string): string
    decreases |parts|
  {
    if |parts| == 0 then "" else Terminated(parts[..|parts| - 1], sep) + parts[|parts| - 1] + sep
  }

  /** Writing every piece with its separator and then a last piece is
      joining them all. */
  lemma {:induction false} JoinTerminated(parts: seq<string>, x: string, sep: string)
    ensures Join(parts + [x], sep) == Terminated(parts, sep) + x
    decreases |parts|
  {
    if |parts| == 0 {
      assert parts + [x] == [x];
    } else {
      var init := parts[..|parts| - 1];
      var last := parts[|parts| - 1];
      JoinTerminated(init, last, sep);
      assert init + [last] == parts;
      JoinSnoc(parts, x, sep);
    }
  }

  /** Joining the pieces of a split gives back the text. */
  lemma {:induction false} JoinSplit(s: string, d: char)
    ensures Join(Split(s, d), [d]) == s
    decreases |s|
  {
    if |s| > 0 {
      var rest := Split(s[1..], d);
      JoinSplit(s[1..], d);
      if s[0] == d {
        assert Split(s, d) == [""] + rest;
        assert Join([""] + rest, [d]) == "" + [d] + Join(rest, [d]);
        assert s == [s[0]] + s[1..];
      } else {
        var r := [[s[0]] + rest[0]] + rest[1..];
        assert Split(s, d) == r;
        if |rest| == 1 {
          assert Join(r, [d]) == [s[0]] + rest[0];
          assert s == [s[0]] + s[1..];
        } else {
          assert r[1..] == rest[1..];
          assert Join(r, [d]) == [s[0]] + rest[0] + [d] + Join(rest[1..], [d]);
          assert Join(rest, [d]) == rest[0] + [d] + Join(rest[1..], [d]);
          assert s == [s[0]] + s[1..];
        }
      }
    }
  }

  /** Splitting a join of separator-free pieces gives back the pieces. */
  lemma {:induction false} SplitJoin(parts: seq<string>, d: char)
    requires |parts| >= 1
    requires forall i :: 0 <= i < |parts| ==> d !in parts[i]
    ensures Split(Join(parts, [d]), d) == parts
    decreases |parts|, |parts[0]|
  {
    if |parts| == 1 {
      SplitNoSep(parts[0], d);
    } else if |parts[0]| == 0 {
      var tail := Join(parts[1..], [d]);
      assert Join(parts, [d]) == [d] + tail;
      SplitJoin(parts[1..], d);
      assert ([d] + tail)[1..] == tail;
      assert [""] + parts[1..] == parts;
    } else {
      var c := parts[0][0];
      var shorter := [parts[0][1..]] + parts[1..];
      assert c != d by { assert c in parts[0]; }
      forall i | 0 <= i < |shorter| ensures d !in shorter[i] {
        if i == 0 {
          assert forall x :: x in parts[0][1..] ==> x in parts[0];
        } else {
          assert shorter[i] == parts[i];
        }
      }
      SplitJoin(shorter, d);
      assert shorter[1..] == parts[1..];
      assert Join(shorter, [d]) == parts[0][1..] + [d] + Join(parts[1..], [d]);
      assert Join(parts, [d]) == [c] + Join(shorter, [d]);
      assert ([c] + Join(shorter, [d]))[1..] == Join(shorter, [d]);
      assert [c] + parts[0][1..] == parts[0];
      assert [[c] + shorter[0]] + shorter[1..] == parts;
    }
  }

  lemma {:induction false} SplitNoSep(s: string, d: char)
    requires d !in s
    ensures Split(s, d) == [s]
    decreases |s|
  {
    if |s| > 0 {
      assert d !in s[1..] by { assert forall x :: x in s[1..] ==> x in s; }
      SplitNoSep(s[1..], d);
      assert [s[0]] + s[1..] == s;
    }
  }

  /** The first piece of a split is a prefix of the text; when d occurs,
      it is followed by d. */
  lemma {:induction false} SplitFirstPiece(s: string, d: char)
    ensures StartsWith(s, Split(s, d)[0])
    ensures d in s ==> |Split(s, d)[0]| < |s| && s[|Split(s, d)[0]|] == d
    ensures d !in s ==> Split(s, d)[0] == s
    decreases |s|
  {
    if |s| > 0 && s[0] != d {
      SplitFirstPiece(s[1..], d);
      assert d in s ==> d in s[1..];
      assert forall x :: x in s[1..] ==> x in s;
    }
  }

  /** Python's s.split(d, 1): the text before and after the first d. */
  function SplitOnce(s: string, d: char): (r: (string, string))
    requires d in s
    ensures r.0 + [d] + r.1 == s
    ensures d !in r.0
  {
    SplitFirstPiece(s, d);
    var k := |Split(s, d)[0]|;
    assert s[..k] == Split(s, d)[0];
    assert s == s[..k] + [d] + s[k + 1..];
    (s[..k], s[k + 1..])
  }

  /** The last element of a list, Python's xs[-1]. */
  function Last<T>(xs: seq<T>): T
    requires |xs| > 0
  {
    xs[|xs| - 1]
  }

  /** Concatenation of a list of strings, Python's ''.join(xs). */
  function Concat(xs: seq<string>): string
    decreases |xs|
  {
    if |xs| == 0 then "" else xs[0] + Concat(xs[1..])
  }

  // ---------------------------------------------------------------------
  // strip, replace(p, ''), split(p) on a substring

  /** The characters Python's str.strip() removes, those str.isspace()
      holds of: the ASCII controls \t to \r and \x1c to \x1f, the space,
      and the Unicode line separators and spaces. */
  predicate IsSpace(c: char) {
    var n := c as int;
    (9 <= n <= 13) || (28 <= n <= 32) || n == 0x85 || n == 0xA0 || n == 0x1680 ||
    (0x2000 <= n <= 0x200A) || n == 0x2028 || n == 0x2029 || n == 0x202F || n == 0x205F || n == 0x3000
  }

  function StripLeft(s: string): (r: string)
    ensures |r| <= |s| && r == s[|s| - |r|..]
    ensures |r| > 0 ==> !IsSpace(r[0])
    decreases |s|
  {
    if |s| > 0 && IsSpace(s[0]) then StripLeft(s[1..]) else s
  }

  function StripRight(s: string): (r: string)
    ensures |r| <= |s| && r == s[..|r|]
    ensures |r| > 0 ==> !IsSpace(r[|r| - 1])
    decreases |s|
  {
    if |s| > 0 && IsSpace(s[|s| - 1]) then StripRight(s[..|s| - 1]) else s
  }

  /** Python's s.strip(): leading and trailing whitespace removed. */
  function Strip(s: string): (r: string)
    ensures |r| <= |s|
    ensures |r| > 0 ==> !IsSpace(r[0]) && !IsSpace(r[|r| - 1])
  {
    StripRight(StripLeft(s))
  }

  /** Python's s.replace(p, ''): every non-overlapping occurrence of p,
      found from the left, removed. */
  function RemoveAll(s: string, p: string): (r: string)
    requires |p| > 0
    ensures |r| <= |s|
    decreases |s|
  {
    if |s| < |p| then s
    else if s[..|p|] == p then RemoveAll(s[|p|..], p)
    else [s[0]] + RemoveAll(s[1..], p)
  }

  /** Text without p is left alone by replace(p, ''). */
  lemma {:induction false} RemoveAllAbsent(s: string, p: string)
    requires |p| > 0 && !Contains(s, p)
    ensures RemoveAll(s, p) == s
    decreases |s|
  {
    if |s| >= |p| {
      assert !OccursAt(s, p, 0);
      assert s[0..0 + |p|] == s[..|p|];
      assert !Contains(s[1..], p) by {
        forall i: nat | OccursAt(s[1..], p, i) ensures false {
          assert s[1..][i..i + |p|] == s[i + 1..i + 1 + |p|];
          assert OccursAt(s, p, i + 1);
        }
      }
      RemoveAllAbsent(s[1..], p);
      assert [s[0]] + s[1..] == s;
    }
  }

  /** The text before the first occurrence of p (all of s when p is absent):
      the first piece of Python's s.split(p). */
  function UntilSub(s: string, p: string): (r: string)
    requires |p| > 0
    ensures |r| <= |s| && r == s[..|r|]
    decreases |s|
  {
    if |s| < |p| then s
    else if s[..|p|] == p then ""
    else [s[0]] + UntilSub(s[1..], p)
  }

  /** The first piece of s.split(p) holds no occurrence of p. */
  lemma {:induction false} UntilSubFree(s: string, p: string)
    requires |p| > 0
    ensures !Contains(UntilSub(s, p), p)
    decreases |s|
  {
    var r := UntilSub(s, p);
    if |s| >= |p| && s[..|p|] != p {
      var t := UntilSub(s[1..], p);
      UntilSubFree(s[1..], p);
      assert r == [s[0]] + t;
      forall i: nat | i <= |r| ensures !OccursAt(r, p, i) {
        if i + |p| <= |r| {
          if i == 0 {
            assert r[..|p|] == s[..|p|];
          } else {
            assert !OccursAt(t, p, i - 1);
            assert t[i - 1..i - 1 + |p|] == r[i..i + |p|];
          }
        }
      }
    }
  }

  /** The first piece of s.split(p) ends at the end of s or where p
      occurs. */
  lemma {:induction false} UntilSubStops(s: string, p: string)
    requires |p| > 0
    ensures var r := UntilSub(s, p); |r| == |s| || StartsWith(s[|r|..], p)
    decreases |s|
  {
    if |s| >= |p| && s[..|p|] != p {
      var t := UntilSub(s[1..], p);
      UntilSubStops(s[1..], p);
      assert s[1..][|t|..] == s[1 + |t|..];
    }
  }

  /** The text after the first occurrence of p, or None when p is absent. */
  function AfterFirst(s: string, p: string): (r: Option<string>)
    requires |p| > 0
    ensures r.Some? ==> |r.value| + |p| <= |s| && r.value == s[|s| - |r.value|..]
    ensures r.None? <==> !Contains(s, p)
    decreases |s|
  {
    if |s| < |p| then None
    else if s[..|p|] == p then
      assert OccursAt(s, p, 0);
      Some(s[|p|..])
    else
      ContainsTail(s, p);
      AfterFirst(s[1..], p)
  }

  lemma ContainsTail(s: string, p: string)
    requires |p| > 0 && |s| >= |p| && s[..|p|] != p
    ensures Contains(s, p) <==> Contains(s[1..], p)
  {
    if Contains(s, p) {
      var i :| 0 <= i <= |s| && OccursAt(s, p, i);
      assert i + |p| <= |s| && s[i..i + |p|] == p;
      assert i != 0 by { assert s[0..0 + |p|] == s[..|p|]; }
      assert s[1..][i - 1..i - 1 + |p|] == s[i..i + |p|];
      assert OccursAt(s[1..], p, i - 1);
    }
    if Contains(s[1..], p) {
      var i :| 0 <= i <= |s[1..]| && OccursAt(s[1..], p, i);
      assert i + |p| <= |s| - 1;
      assert s[i + 1..i + 1 + |p|] == s[1..][i..i + |p|];
      assert OccursAt(s, p, i + 1);
    }
  }

  /** Python's s.split(p)[1]: the piece between the first and the second
      occurrence of p; IndexError when p does not occur. */
  function SecondPiece(s: string, p: string): (r: Result<string>)
    requires |p| > 0
    ensures r.Err? <==> !Contains(s, p)
  {
    match AfterFirst(s, p)
    case None => Err(IndexError)
    case Some(rest) => Ok(UntilSub(rest, p))
  }

  /** Python's s[k:], which never fails. */
  function Drop(s: string, k: nat): (r: string)
    ensures |r| == if |s| <= k then 0 else |s| - k
    ensures forall i :: 0 <= i < |r| ==> r[i] == s[k + i]
  {
    if |s| <= k then "" else s[k..]
  }

  // ---------------------------------------------------------------------
  // integers as text

  predicate IsDigit(c: char) { '0' <= c <= '9' }

  predicate AllDigits(s: string) {
    forall i :: 0 <= i < |s| ==> IsDigit(s[i])
  }

  function DigitValue(c: char): nat
    requires IsDigit(c)
  {
    c as int - '0' as int
  }

  function DigitChar(n: nat): (c: char)
    requires n < 10
    ensures IsDigit(c) && DigitValue(c) == n
  {
    ('0' as int + n) as char
  }

  /** The value of a string of decimal digits. */
  function DigitsValue(s: string): nat
    requires AllDigits(s)
    decreases |s|
  {
    if |s| == 0 then 0
    else DigitsValue(s[..|s| - 1]) * 10 + DigitValue(s[|s| - 1])
  }

  /** Python's int(s) on a decimal literal: an optional sign and at least
      one digit; anything else raises ValueError. */
  function ParseInt(s: string): Result<int> {
    if |s| >= 2 && s[0] == '-' && AllDigits(s[1..]) then Ok(0 - DigitsValue(s[1..]) as int)
    else if |s| >= 2 && s[0] == '+' && AllDigits(s[1..]) then Ok(DigitsValue(s[1..]))
    else if |s| >= 1 && AllDigits(s) then Ok(DigitsValue(s))
    else Err(ValueError)
  }

  /** Python's str(n) for a natural number. */
  function NatToString(n: nat): (s: string)
    ensures |s| >= 1 && AllDigits(s)
    decreases n
  {
    if n < 10 then [DigitChar(n)] else NatToString(n / 10) + [DigitChar(n % 10)]
  }

  /** Python's str(n) for an integer. */
  function IntToString(n: int): (s: string)
    ensures |s| >= 1
  {
    if n < 0 then "-" + NatToString(-n) else NatToString(n)
  }

  lemma {:induction false} NatToStringValue(n: nat)
    ensures DigitsValue(NatToString(n)) == n
    decreases n
  {
    var s := NatToString(n);
    if n >= 10 {
      NatToStringValue(n / 10);
      assert s[..|s| - 1] == NatToString(n / 10);
    }
  }

  /** int(str(n)) == n. */
  lemma IntToStringRoundTrip(n: int)
    ensures ParseInt(IntToString(n)) == Ok(n)
  {
    if n < 0 {
      NatToStringValue(-n);
      assert IntToString(n)[1..] == NatToString(-n);
    } else {
      NatToStringValue(n);
    }
  }

  /** str() is injective on integers. */
  lemma IntToStringInjective(a: int, b: int)
    requires IntToString(a) == IntToString(b)
    ensures a == b
  {
    IntToStringRoundTrip(a);
    IntToStringRoundTrip(b);
  }

  function Zeros(n: nat): (s: string)
    ensures |s| == n && AllDigits(s)
    ensures forall i :: 0 <= i < n ==> s[i] == '0'
  {
    seq(n, _ => '0')
  }

  /** Python's s.zfill(w) on a digit string: zeros prepended up to width w. */
  function ZFill(s: string, w: nat): (r: string)
    ensures |r| == if |s| >= w then |s| else w
  {
    if |s| >= w then s else Zeros(w - |s|) + s
  }

  /** Leading zeros do not change a digit string's value. */
  lemma {:induction false} LeadingZerosValue(z: nat, s: string)
    requires AllDigits(s)
    ensures AllDigits(Zeros(z) + s) && DigitsValue(Zeros(z) + s) == DigitsValue(s)
    decreases |s|
  {
    var t := Zeros(z) + s;
    assert AllDigits(t);
    if |s| == 0 {
      ZerosValue(z);
      assert t == Zeros(z);
    } else {
      assert t[..|t| - 1] == Zeros(z) + s[..|s| - 1];
      LeadingZerosValue(z, s[..|s| - 1]);
    }
  }

  lemma {:induction false} ZerosValue(z: nat)
    ensures DigitsValue(Zeros(z)) == 0
    decreases z
  {
    if z > 0 {
      assert Zeros(z)[..z - 1] == Zeros(z - 1);
      ZerosValue(z - 1);
    }
  }

  /** Zero padding keeps the value: str(n).zfill(w) still reads as n. */
  lemma ZFillValue(n: nat, w: nat)
    ensures AllDigits(ZFill(NatToString(n), w))
    ensures DigitsValue(ZFill(NatToString(n), w)) == n
  {
    var s := NatToString(n);
    NatToStringValue(n);
    var z := if |s| >= w then 0 else w - |s|;
    assert ZFill(s, w) == Zeros(z) + s;
    LeadingZerosValue(z, s);
  }

  /** str(n).zfill(w) is injective on naturals. */
  lemma ZFillInjective(a: nat, b: nat, w: nat)
    requires ZFill(NatToString(a), w) == ZFill(NatToString(b), w)
    ensures a == b
  {
    ZFillValue(a, w);
    ZFillValue(b, w);
  }

  // ---------------------------------------------------------------------
  // case

  /** Python's str.upper() on ASCII letters. */
  function UpperChar(c: char): char {
    if 'a' <= c <= 'z' then (c as int - 32) as char else c
  }

  function Upper(s: string): (r: string)
    ensures |r| == |s| && forall i :: 0 <= i < |s| ==> r[i] == UpperChar(s[i])
  {
    seq(|s|, i requires 0 <= i < |s| => UpperChar(s[i]))
  }
}
