/** Strings and slash-separated logical paths: the path join used by the walk,
    the extension tests of the top-level operations, Python's `str` of a counter,
    and the prefix structure of paths that the walk's addressing relies on. */
module Paths {

  /** `tf.io.gfile.join(p, s)` for a relative component `s`: joining onto the
      empty path yields `s` itself, otherwise the two are separated by one slash. */
  function Join(p: string, s: string): string
  {
    if p == "" then s else p + "/" + s
  }

  predicate StartsWith(s: string, prefix: string)
  {
    |prefix| <= |s| && s[..|prefix|] == prefix
  }

  /** Python's `str.endswith`. */
  predicate EndsWith(s: string, suffix: string)
  {
    |suffix| <= |s| && s[|s| - |suffix|..] == suffix
  }

  predicate SlashFree(s: string)
  {
    forall k :: 0 <= k < |s| ==> s[k] != '/'
  }

  /** A component that can stand between two slashes of a path. */
  predicate Segment(s: string)
  {
    s != "" && SlashFree(s)
  }

  predicate IsDigit(c: char)
  {
    '0' <= c <= '9'
  }

  predicate AllDigits(s: string)
  {
    forall k :: 0 <= k < |s| ==> IsDigit(s[k])
  }

  function DigitChar(d: nat): (c: char)
    requires d < 10
    ensures IsDigit(c) && c as int == '0' as int + d
  {
    ('0' as int + d) as char
  }

  /** Python's `str(n)` for a natural number: its decimal digits, no leading zero. */
  function NatToString(n: nat): (r: string)
    ensures r != [] && AllDigits(r)
    ensures n < 10 <==> |r| == 1
  {
    if n < 10 then [DigitChar(n)] else NatToString(n / 10) + [DigitChar(n % 10)]
  }

  /** Distinct counters print differently. */
  lemma {:induction false} NatToStringInjective(a: nat, b: nat)
    requires NatToString(a) == NatToString(b)
    ensures a == b
  {
    if a >= 10 && b >= 10 {
      var sa, sb := NatToString(a), NatToString(b);
      assert sa[..|sa| - 1] == NatToString(a / 10);
      assert sb[..|sb| - 1] == NatToString(b / 10);
      assert sa[|sa| - 1] == DigitChar(a % 10) && sb[|sb| - 1] == DigitChar(b % 10);
      NatToStringInjective(a / 10, b / 10);
    }
  }

  /** `s` ends in an underscore followed by at least one digit, as `name_3` does. */
  predicate HasNumericSuffix(s: string)
  {
    exists k :: 0 <= k < |s| - 1 && s[k] == '_' && AllDigits(s[k + 1..])
  }

  lemma SuffixedNameHasNumericSuffix(b: string, n: nat)
    ensures HasNumericSuffix(b + "_" + NatToString(n))
  {
    var s := b + "_" + NatToString(n);
    assert s[|b|] == '_' && s[|b| + 1..] == NatToString(n);
  }

  /** A name of the form `b_d`, with `d` all digits, determines `b` and `d`:
      the digits cannot contain the underscore that separates them from `b`. */
  lemma SuffixedNameSplit(b1: string, d1: string, b2: string, d2: string)
    requires AllDigits(d1) && AllDigits(d2)
    requires b1 + "_" + d1 == b2 + "_" + d2
    ensures b1 == b2 && d1 == d2
  {
    var s := b1 + "_" + d1;
    var t := b2 + "_" + d2;
    if |d1| < |d2| {
      UnderscoreAt(b1, d1);
      DigitsAt(b2, d2, |s| - |d1| - 1);
      assert false;
    } else if |d2| < |d1| {
      UnderscoreAt(b2, d2);
      DigitsAt(b1, d1, |t| - |d2| - 1);
      assert false;
    }
    assert b1 == s[..|b1|] && b2 == s[..|b2|];
    assert d1 == s[|b1| + 1..] && d2 == s[|b2| + 1..];
  }

  lemma UnderscoreAt(b: string, d: string)
    ensures (b + "_" + d)[|b| + |d| + 1 - |d| - 1] == '_'
  {
  }

  lemma DigitsAt(b: string, d: string, k: int)
    requires AllDigits(d) && |b| + 1 <= k < |b| + 1 + |d|
    ensures IsDigit((b + "_" + d)[k])
  {
    assert (b + "_" + d)[k] == d[k - |b| - 1];
  }

  lemma SuffixedNameIsSegment(b: string, n: nat)
    requires SlashFree(b)
    ensures Segment(b + "_" + NatToString(n))
  {
    var d := NatToString(n);
    var s := b + "_" + d;
    forall k | 0 <= k < |s| ensures s[k] != '/' {
      if k > |b| {
        assert s[k] == d[k - |b| - 1];
      }
    }
  }

  /* ---------------------------------------------------------------------------
     Prefix structure of paths. The empty path is the root: every path lies
     below it, and its children are the bare components.
     --------------------------------------------------------------------------- */

  /** `q` lies strictly below `p`. */
  predicate StrictlyUnder(q: string, p: string)
  {
    if p == "" then q != "" else |q| > |p| && q[..|p| + 1] == p + "/"
  }

  /** `q` is `p` or lies below it. */
  predicate Under(q: string, p: string)
  {
    q == p || StrictlyUnder(q, p)
  }

  /** The longest slash-free prefix of `s`. */
  function FirstSegment(s: string): (r: string)
    ensures |r| <= |s| && SlashFree(r)
  {
    if s == [] || s[0] == '/' then [] else [s[0]] + FirstSegment(s[1..])
  }

  /** The component of `q` that comes right after `p`. */
  function SegmentAfter(q: string, p: string): string
    requires StrictlyUnder(q, p)
  {
    if p == "" then FirstSegment(q) else FirstSegment(q[|p| + 1..])
  }

  lemma {:induction false} FirstSegmentOfSlashFree(s: string, rest: string)
    requires SlashFree(s)
    ensures FirstSegment(s) == s
    ensures FirstSegment(s + "/" + rest) == s
  {
    if s != [] {
      assert (s + "/" + rest)[1..] == s[1..] + "/" + rest;
      FirstSegmentOfSlashFree(s[1..], rest);
    }
  }

  /** Whatever lies at or below `Join(p, s)` lies strictly below `p`, and the
      component right after `p` is `s`: the children of one path that carry
      different components have disjoint subtrees. */
  lemma UnderJoin(q: string, p: string, s: string)
    requires Segment(s) && Under(q, Join(p, s))
    ensures StrictlyUnder(q, p) && SegmentAfter(q, p) == s
  {
    var r := Join(p, s);
    if q == r {
      FirstSegmentOfSlashFree(s, "");
      if p != "" {
        assert q[..|p| + 1] == p + "/" && q[|p| + 1..] == s;
      }
    } else {
      var tail := q[|r| + 1..];
      assert q == r + "/" + tail by {
        assert q[..|r| + 1] == r + "/";
      }
      FirstSegmentOfSlashFree(s, tail);
      if p != "" {
        assert q[..|p| + 1] == p + "/";
        assert q[|p| + 1..] == s + "/" + tail;
      }
    }
  }

  lemma StrictlyUnderIsNotEqual(q: string, p: string)
    requires StrictlyUnder(q, p)
    ensures q != p
  {
  }
}
