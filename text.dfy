/** Character-level string operations used by the endpoint rewriting:
    suffix test and left-to-right replacement of every occurrence. */
module Text {

  /** `s` ends with `suffix` (Swift's `hasSuffix`, compared character by character). */
  predicate HasSuffix(s: string, suffix: string) {
    |suffix| <= |s| && s[|s| - |suffix|..] == suffix
  }

  /** `pat` occurs in `s` starting at index `i`. */
  predicate OccursAt(s: string, pat: string, i: nat) {
    i + |pat| <= |s| && s[i..i + |pat|] == pat
  }

  predicate Contains(s: string, pat: string) {
    exists i: nat | i <= |s| :: OccursAt(s, pat, i)
  }

  /** No proper, non-empty suffix of `p` is also a prefix of `p`, so two
      occurrences of `p` can never overlap. */
  predicate Unbordered(p: string) {
    forall d :: 0 < d < |p| ==> p[d..] != p[..|p| - d]
  }

  /** No proper, non-empty suffix of `pat` is a prefix of `s`: an occurrence
      of `pat` cannot run into a following `s`. */
  predicate NoOverlapInto(pat: string, s: string) {
    forall k :: 0 < k < |pat| && k <= |s| ==> pat[|pat| - k..] != s[..k]
  }

  /** Swift's `replacingOccurrences(of: pat, with: rep)`: scan left to right and
      replace every non-overlapping occurrence of `pat` by `rep`. */
  function ReplaceAll(s: string, pat: string, rep: string): string
    requires pat != []
    decreases |s|
  {
    if |s| < |pat| then s
    else if s[..|pat|] == pat then rep + ReplaceAll(s[|pat|..], pat, rep)
    else [s[0]] + ReplaceAll(s[1..], pat, rep)
  }

  lemma ContainsShift(s: string, pat: string, n: nat)
    requires n <= |s| && !Contains(s, pat)
    ensures !Contains(s[n..], pat)
  {
    forall i: nat | OccursAt(s[n..], pat, i) ensures OccursAt(s, pat, i + n) {
      assert s[n..][i..i + |pat|] == s[i + n..i + n + |pat|];
    }
  }

  /** Replacing a pattern that does not occur leaves the string unchanged. */
  lemma {:induction false} ReplaceAbsent(s: string, pat: string, rep: string)
    requires pat != [] && !Contains(s, pat)
    ensures ReplaceAll(s, pat, rep) == s
    decreases |s|
  {
    if |s| >= |pat| {
      assert !OccursAt(s, pat, 0);
      ContainsShift(s, pat, 1);
      ReplaceAbsent(s[1..], pat, rep);
    }
  }

  /** One scan step past a character that does not start `pat`. */
  lemma ReplaceSkipsHead(c: char, s: string, pat: string, rep: string)
    requires pat != [] && !OccursAt([c] + s, pat, 0)
    ensures ReplaceAll([c] + s, pat, rep) == [c] + ReplaceAll(s, pat, rep)
  {
    assert ([c] + s)[1..] == s;
  }

  /** One scan step over an occurrence of `pat`. */
  lemma ReplaceAtHead(s: string, pat: string, rep: string)
    requires pat != []
    ensures ReplaceAll(pat + s, pat, rep) == rep + ReplaceAll(s, pat, rep)
  {
    assert (pat + s)[..|pat|] == pat;
    assert (pat + s)[|pat|..] == s;
  }

  lemma ReplaceShortIsIdentity(t: string, pat: string, rep: string)
    requires pat != [] && |t| < |pat|
    ensures ReplaceAll(t, pat, rep) == t
  {
  }

  /** If the image of `t` under the replacement starts with `q`, a non-empty
      proper suffix of the unbordered `rep`-side marker `b` (here `rep == b`),
      then `t` itself starts with `q`: no replacement can begin inside such a
      prefix, because `b` has no border. */
  lemma {:induction false} PrefixSurvives(t: string, pat: string, b: string, j: nat)
    requires pat != [] && Unbordered(b)
    requires 0 < j < |b|
    requires |b[j..]| <= |ReplaceAll(t, pat, b)|
    requires ReplaceAll(t, pat, b)[..|b| - j] == b[j..]
    ensures |b| - j <= |t| && t[..|b| - j] == b[j..]
    decreases |b| - j
  {
    var q := b[j..];
    var f := ReplaceAll(t, pat, b);
    if |t| < |pat| {
    } else if t[..|pat|] == pat {
      assert false;
    } else {
      var g := ReplaceAll(t[1..], pat, b);
      assert f == [t[0]] + g;
      assert t[0] == q[0] by { assert f[..|q|][0] == f[0]; }
      if j + 1 < |b| {
        assert g[..|b| - (j + 1)] == b[j + 1..] by {
          assert g[..|b| - (j + 1)] == f[1..|q|];
          assert f[1..|q|] == q[1..];
        }
        PrefixSurvives(t[1..], pat, b, j + 1);
        assert t[..|q|] == [t[0]] + t[1..][..|b| - (j + 1)];
      }
    }
  }

  /** The replacement of a string that does not start with `pat` cannot start
      with the unbordered `b` unless the string itself does. */
  lemma HeadStep(s: string, pat: string, b: string)
    requires pat != [] && b != [] && Unbordered(b)
    requires |s| >= |pat| && s[..|pat|] != pat
    requires |b| <= 1 + |ReplaceAll(s[1..], pat, b)|
    requires ([s[0]] + ReplaceAll(s[1..], pat, b))[..|b|] == b
    ensures OccursAt(s, b, 0)
  {
    var g := ReplaceAll(s[1..], pat, b);
    assert s[0] == b[0] by { assert ([s[0]] + g)[..|b|][0] == s[0]; }
    if |b| > 1 {
      assert g[..|b| - 1] == b[1..] by {
        assert g[..|b| - 1] == ([s[0]] + g)[..|b|][1..];
      }
      PrefixSurvives(s[1..], pat, b, 1);
      assert s[..|b|] == [s[0]] + s[1..][..|b| - 1];
    }
  }

  /** Replacing `a` by `b` and then `b` by `a` restores any string that did not
      contain `b`, provided `b` cannot overlap itself. */
  lemma {:induction false} ReplaceRoundTrip(s: string, a: string, b: string)
    requires a != [] && b != [] && Unbordered(b)
    requires !Contains(s, b)
    ensures ReplaceAll(ReplaceAll(s, a, b), b, a) == s
    decreases |s|
  {
    if |s| < |a| {
      ReplaceAbsent(s, b, a);
    } else if s[..|a|] == a {
      var t := s[|a|..];
      ContainsShift(s, b, |a|);
      ReplaceRoundTrip(t, a, b);
      var f := b + ReplaceAll(t, a, b);
      assert f[..|b|] == b;
      assert f[|b|..] == ReplaceAll(t, a, b);
      assert s == a + t;
    } else {
      var t := s[1..];
      ContainsShift(s, b, 1);
      ReplaceRoundTrip(t, a, b);
      var g := ReplaceAll(t, a, b);
      var f := [s[0]] + g;
      assert ReplaceAll(s, a, b) == f;
      if |f| < |b| {
        ReplaceShortIsIdentity(g, b, a);
        ReplaceShortIsIdentity(f, b, a);
        assert f == s;
      } else {
        if f[..|b|] == b {
          HeadStep(s, a, b);
          assert false;
        }
        assert f[1..] == g;
        assert s == [s[0]] + t;
      }
    }
  }

  /** `pat` cannot start at the front of `h` when it would run into the
      suffix `sfx` of `h`. */
  lemma StartBlockedBySuffix(h: string, pat: string, sfx: string)
    requires NoOverlapInto(pat, sfx)
    requires HasSuffix(h, sfx) && |sfx| < |h| < |pat| + |sfx|
    ensures !OccursAt(h, pat, 0)
  {
    var p := |h| - |sfx|;
    var k := |pat| - p;
    if |pat| <= |h| {
      assert pat[|pat| - k..] != sfx[..k];
      assert sfx[..k] == h[p..|pat|];
      assert h[..|pat|][p..] == h[p..|pat|];
    }
  }

  lemma SuffixOfTail(h: string, n: nat, sfx: string)
    requires HasSuffix(h, sfx) && n + |sfx| <= |h|
    ensures HasSuffix(h[n..], sfx)
  {
    assert h[n..][|h| - n - |sfx|..] == h[|h| - |sfx|..];
  }

  lemma SuffixOfConcat(x: string, y: string, sfx: string)
    requires HasSuffix(y, sfx)
    ensures HasSuffix(x + y, sfx)
  {
    assert (x + y)[|x + y| - |sfx|..] == y[|y| - |sfx|..];
  }

  /** A replacement confined to the part before a suffix `sfx` keeps that
      suffix: `pat` neither occurs in `sfx` nor runs into it. */
  lemma {:induction false} ReplaceKeepsSuffix(h: string, pat: string, rep: string, sfx: string)
    requires pat != []
    requires !Contains(sfx, pat) && NoOverlapInto(pat, sfx)
    requires HasSuffix(h, sfx)
    ensures HasSuffix(ReplaceAll(h, pat, rep), sfx)
    decreases |h|
  {
    if |h| == |sfx| {
      assert h == sfx;
      ReplaceAbsent(h, pat, rep);
    } else if |h| >= |pat| {
      if |h| < |pat| + |sfx| {
        StartBlockedBySuffix(h, pat, sfx);
      }
      if h[..|pat|] == pat {
        SuffixOfTail(h, |pat|, sfx);
        ReplaceKeepsSuffix(h[|pat|..], pat, rep, sfx);
        SuffixOfConcat(rep, ReplaceAll(h[|pat|..], pat, rep), sfx);
      } else {
        SuffixOfTail(h, 1, sfx);
        ReplaceKeepsSuffix(h[1..], pat, rep, sfx);
        SuffixOfConcat([h[0]], ReplaceAll(h[1..], pat, rep), sfx);
      }
    }
  }
}
