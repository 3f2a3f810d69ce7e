/**
 * The handful of Python string operations the tool relies on: `startswith`,
 * `in` (substring containment), `replace(pat, "")`, `split(sep)`, `sep.join`
 * and `str()` of a natural number.
 */
module Strings {
  import opened Wrappers

  /** Python's `s.startswith(prefix)`. */
  predicate StartsWith(s: string, prefix: string) {
    |prefix| <= |s| && s[..|prefix|] == prefix
  }

  /** Python's `sub in s`: `sub` occurs somewhere in `s` (the empty string occurs everywhere). */
  predicate Contains(s: string, sub: string)
    decreases |s|
  {
    StartsWith(s, sub) || (|s| > 0 && Contains(s[1..], sub))
  }

  /** An occurrence at any offset makes `sub in s` true. */
  lemma {:induction false} ContainsAt(s: string, sub: string, i: nat)
    requires i <= |s| && StartsWith(s[i..], sub)
    ensures Contains(s, sub)
  {
    if i > 0 {
      assert s[1..][i - 1..] == s[i..];
      ContainsAt(s[1..], sub, i - 1);
    } else {
      assert s[0..] == s;
    }
  }

  /**
   * Python's `s.replace(pat, "")` for a non-empty `pat`: scanning left to right,
   * every non-overlapping occurrence of `pat` is deleted, not only a leading one.
   */
  function RemoveAll(s: string, pat: string): (r: string)
    requires |pat| > 0
    ensures |r| <= |s|
    ensures StartsWith(s, pat) ==> |r| + |pat| <= |s|
    decreases |s|
  {
    if StartsWith(s, pat) then RemoveAll(s[|pat|..], pat)
    else if s == [] then []
    else [s[0]] + RemoveAll(s[1..], pat)
  }

  /** `replace` leaves a string unchanged exactly when the pattern does not occur in it. */
  lemma {:induction false} RemoveAllIdentity(s: string, pat: string)
    requires |pat| > 0
    ensures RemoveAll(s, pat) == s <==> !Contains(s, pat)
    decreases |s|
  {
    if StartsWith(s, pat) {
      assert |RemoveAll(s, pat)| < |s|;
    } else if s == [] {
    } else {
      RemoveAllIdentity(s[1..], pat);
      assert s == [s[0]] + s[1..];
      assert RemoveAll(s, pat) == [s[0]] + RemoveAll(s[1..], pat);
    }
  }

  /** Removing every `pat` from `pat + rest` gives `rest` back when `rest` holds no further `pat`. */
  lemma StripLeading(pat: string, rest: string)
    requires |pat| > 0 && !Contains(rest, pat)
    ensures RemoveAll(pat + rest, pat) == rest
  {
    assert StartsWith(pat + rest, pat);
    assert (pat + rest)[|pat|..] == rest;
    RemoveAllIdentity(rest, pat);
  }

  /**
   * `replace` removes an occurrence wherever it stands: when `pat` does not
   * start anywhere within `a` (nor straddle its end), the occurrence after `a`
   * is deleted and the scan goes on in `b`.
   */
  lemma {:induction false} RemoveAllAt(a: string, pat: string, b: string)
    requires |pat| > 0 && !Contains(a + pat[..|pat| - 1], pat)
    ensures RemoveAll(a + pat + b, pat) == a + RemoveAll(b, pat)
    decreases |a|
  {
    if a == [] {
      assert a + pat + b == pat + b;
      RemoveAllHead(pat, b);
    } else {
      RemoveAllAtStep(a, pat, b);
      RemoveAllAt(a[1..], pat, b);
      assert [a[0]] + (a[1..] + RemoveAll(b, pat)) == a + RemoveAll(b, pat) by {
        AppendAssoc([a[0]], a[1..], RemoveAll(b, pat));
        assert [a[0]] + a[1..] == a;
      }
    }
  }

  /** One character of `a`, which starts no occurrence, is kept and the scan moves on. */
  lemma RemoveAllAtStep(a: string, pat: string, b: string)
    requires |a| > 0 && |pat| > 0 && !Contains(a + pat[..|pat| - 1], pat)
    ensures RemoveAll(a + pat + b, pat) == [a[0]] + RemoveAll(a[1..] + pat + b, pat)
    ensures !Contains(a[1..] + pat[..|pat| - 1], pat)
  {
    var c, tail := a[0], a[1..];
    assert a == [c] + tail;
    assert a + pat + b == [c] + (tail + pat + b);
    assert a + pat[..|pat| - 1] == [c] + (tail + pat[..|pat| - 1]);
    NotLeading(a, pat, b);
    RemoveAllCons(c, tail + pat + b, pat);
    ContainsTail(c, tail + pat[..|pat| - 1], pat);
  }

  /** A leading occurrence is deleted. */
  lemma RemoveAllHead(pat: string, b: string)
    requires |pat| > 0
    ensures RemoveAll(pat + b, pat) == RemoveAll(b, pat)
  {
    assert StartsWith(pat + b, pat) && (pat + b)[|pat|..] == b;
  }

  /** A first character that starts no occurrence is kept. */
  lemma RemoveAllCons(c: char, t: string, pat: string)
    requires |pat| > 0 && !StartsWith([c] + t, pat)
    ensures RemoveAll([c] + t, pat) == [c] + RemoveAll(t, pat)
  {
    assert ([c] + t)[1..] == t;
  }

  /** A string free of `pat` has tails free of it. */
  lemma ContainsTail(c: char, t: string, sub: string)
    requires !Contains([c] + t, sub)
    ensures !Contains(t, sub)
  {
    assert ([c] + t)[1..] == t;
  }

  /** With `a` non-empty, an occurrence of `pat` at the start of `a + pat + b` would lie within `a + pat[..|pat| - 1]`. */
  lemma NotLeading(a: string, pat: string, b: string)
    requires |a| > 0 && |pat| > 0 && !Contains(a + pat[..|pat| - 1], pat)
    ensures !StartsWith(a + pat + b, pat)
  {
    var w := a + pat[..|pat| - 1];
    assert !StartsWith(w, pat);
    assert (a + pat + b)[..|pat|] == w[..|pat|];
  }

  /** `s.split(sep)[0]`: the longest prefix of `s` that holds no `sep`. */
  function FirstSegment(s: string, sep: char): (seg: string)
    ensures StartsWith(s, seg)
    ensures sep !in seg
    ensures |seg| == |s| || s[|seg|] == sep
  {
    if s == [] || s[0] == sep then []
    else [s[0]] + FirstSegment(s[1..], sep)
  }

  /** The three properties in FirstSegment's contract single out its result. */
  lemma FirstSegmentUnique(s: string, sep: char, seg: string)
    requires StartsWith(s, seg) && sep !in seg && (|seg| == |s| || s[|seg|] == sep)
    ensures FirstSegment(s, sep) == seg
  {
  }

  /** Python's `s.split(sep)`: the pieces between separators, always at least one. */
  function Split(s: string, sep: char): (parts: seq<string>)
    ensures |parts| >= 1 && parts[0] == FirstSegment(s, sep)
    decreases |s|
  {
    var seg := FirstSegment(s, sep);
    if |seg| == |s| then [s] else [seg] + Split(s[|seg| + 1..], sep)
  }

  /** Python's `sep.join(parts)`. */
  function JoinWith(parts: seq<string>, sep: char): string
  {
    if |parts| == 0 then ""
    else if |parts| == 1 then parts[0]
    else parts[0] + [sep] + JoinWith(parts[1..], sep)
  }

  /** One step of a split: the first segment, the separator, and the split of the rest. */
  lemma SplitStep(s: string, sep: char)
    requires |FirstSegment(s, sep)| < |s|
    ensures var seg := FirstSegment(s, sep);
      && Split(s, sep) == [seg] + Split(s[|seg| + 1..], sep)
      && s == seg + [sep] + s[|seg| + 1..]
  {
    var seg := FirstSegment(s, sep);
    SliceAround(s, |seg|);
  }

  lemma SliceAround<T>(s: seq<T>, i: nat)
    requires i < |s|
    ensures s == s[..i] + [s[i]] + s[i + 1..]
  {
  }

  /** Joining a piece in front of a non-empty list puts a separator between them. */
  lemma JoinCons(x: string, parts: seq<string>, sep: char)
    requires |parts| >= 1
    ensures JoinWith([x] + parts, sep) == x + [sep] + JoinWith(parts, sep)
  {
    assert ([x] + parts)[1..] == parts;
  }

  /** Joining the pieces of a split gives the original string back. */
  lemma {:induction false} SplitJoin(s: string, sep: char)
    ensures JoinWith(Split(s, sep), sep) == s
    decreases |s|
  {
    var seg := FirstSegment(s, sep);
    if |seg| < |s| {
      var t := s[|seg| + 1..];
      SplitStep(s, sep);
      SplitJoin(t, sep);
      JoinCons(seg, Split(t, sep), sep);
    }
  }

  /** Splitting a join of separator-free pieces gives the pieces back. */
  lemma {:induction false} JoinSplit(parts: seq<string>, sep: char)
    requires |parts| >= 1
    requires forall i :: 0 <= i < |parts| ==> sep !in parts[i]
    ensures Split(JoinWith(parts, sep), sep) == parts
  {
    var s := JoinWith(parts, sep);
    if |parts| == 1 {
      FirstSegmentUnique(s, sep, s);
    } else {
      var rest := JoinWith(parts[1..], sep);
      JoinCons(parts[0], parts[1..], sep);
      assert parts == [parts[0]] + parts[1..];
      assert s == parts[0] + [sep] + rest;
      FirstSegmentUnique(s, sep, parts[0]);
      SplitStep(s, sep);
      assert s[|parts[0]| + 1..] == rest;
      JoinSplit(parts[1..], sep);
    }
  }

  /** A split whose first piece is known separator-free and followed by a separator. */
  lemma SplitAt(s: string, seg: string, sep: char)
    requires sep !in seg && |seg| < |s| && s[..|seg|] == seg && s[|seg|] == sep
    ensures Split(s, sep) == [seg] + Split(s[|seg| + 1..], sep)
  {
    FirstSegmentUnique(s, sep, seg);
    SplitStep(s, sep);
  }

  lemma AppendAssoc<T>(x: seq<T>, y: seq<T>, z: seq<T>)
    ensures x + (y + z) == (x + y) + z
  {
  }

  /** Splitting at a separator splits both sides independently. */
  lemma {:induction false} SplitConcat(a: string, b: string, sep: char)
    ensures Split(a + [sep] + b, sep) == Split(a, sep) + Split(b, sep)
    decreases |a|
  {
    var seg := FirstSegment(a, sep);
    if |seg| == |a| {
      SplitConcatBase(a, b, sep);
    } else {
      var a' := a[|seg| + 1..];
      SplitStep(a, sep);
      SplitAfterPiece(seg, a' + [sep] + b, sep);
      assert a + [sep] + b == seg + [sep] + (a' + [sep] + b) by {
        assert a == seg + [sep] + a';
        AppendAssoc(seg + [sep], a', [sep] + b);
        AppendAssoc(a, [sep], b);
        AppendAssoc(a', [sep], b);
      }
      SplitConcat(a', b, sep);
      AppendAssoc([seg], Split(a', sep), Split(b, sep));
    }
  }

  /** A separator-free left part is the first piece. */
  lemma SplitConcatBase(a: string, b: string, sep: char)
    requires |FirstSegment(a, sep)| == |a|
    ensures Split(a, sep) == [a]
    ensures Split(a + [sep] + b, sep) == [a] + Split(b, sep)
  {
    SplitAfterPiece(a, b, sep);
  }

  /** A separator-free piece followed by a separator is split off first. */
  lemma SplitAfterPiece(seg: string, t: string, sep: char)
    requires sep !in seg
    ensures Split(seg + [sep] + t, sep) == [seg] + Split(t, sep)
  {
    var s := seg + [sep] + t;
    assert s[..|seg|] == seg && s[|seg|] == sep && s[|seg| + 1..] == t;
    SplitAt(s, seg, sep);
  }

  predicate IsDigit(c: char) {
    '0' <= c <= '9'
  }

  function DigitChar(d: nat): (c: char)
    requires d < 10
  {
    (48 + d) as char
  }

  /** Python's `str(n)` for a natural number: its decimal digits, no leading zero. */
  function NatToString(n: nat): (s: string)
    ensures |s| >= 1
    ensures forall i :: 0 <= i < |s| ==> IsDigit(s[i])
    ensures (s[0] == '0') == (n == 0)
    decreases n
  {
    if n < 10 then [DigitChar(n)] else NatToString(n / 10) + [DigitChar(n % 10)]
  }

  /** The value of a non-empty string of decimal digits; None for anything else. */
  function ParseNat(s: string): Option<nat>
    decreases |s|
  {
    if s == [] || !IsDigit(s[|s| - 1]) then None
    else
      var d := s[|s| - 1] as int - 48;
      if |s| == 1 then Some(d)
      else match ParseNat(s[..|s| - 1])
        case None => None
        case Some(m) => Some(10 * m + d)
  }

  /** The decimal text of a number reads back as that number. */
  lemma {:induction false} ParseNatToString(n: nat)
    ensures ParseNat(NatToString(n)) == Some(n)
    decreases n
  {
    if n >= 10 {
      var s := NatToString(n);
      assert s[..|s| - 1] == NatToString(n / 10);
      ParseNatToString(n / 10);
    }
  }
}
