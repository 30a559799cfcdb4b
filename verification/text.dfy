/** The three Python string operations the risk scorer relies on:
    `str.startswith`, the substring test `sub in s`, and `str.replace`.
    Strings are sequences of Unicode scalar values and lengths count them,
    as Python's `len` counts code points; a Python `str` may also hold lone
    surrogates, which a Dafny `string` cannot. No case folding or
    normalisation takes place. */
module Text {

  /** Python's `s.startswith(prefix)`: the prefix agrees with `s`
      character by character. */
  function StartsWith(s: string, prefix: string): (b: bool)
    ensures b <==> |prefix| <= |s| && forall i :: 0 <= i < |prefix| ==> s[i] == prefix[i]
  {
    |prefix| <= |s| && s[..|prefix|] == prefix
  }

  /** `sub` occurs in `s` beginning at index `i`. */
  predicate OccursAt(s: string, sub: string, i: nat)
  {
    i + |sub| <= |s| && s[i..i + |sub|] == sub
  }

  /** Python's `sub in s`, checked position by position from the left. The
      empty string occurs everywhere, and an occurrence needs room: a string
      never contains a longer one. */
  function Contains(s: string, sub: string): (b: bool)
    ensures |sub| == 0 ==> b
    ensures b ==> |sub| <= |s|
    decreases |s|
  {
    StartsWith(s, sub) || (|s| > 0 && Contains(s[1..], sub))
  }

  /** Python's `s.replace(pat, rep)` for a non-empty `pat`: scanning from the
      left, every occurrence of `pat` that does not overlap an occurrence
      already replaced is replaced by `rep`. */
  function ReplaceAll(s: string, pat: string, rep: string): (r: string)
    requires |pat| > 0
    ensures |rep| <= |pat| ==> |r| <= |s|
    ensures !Contains(s, pat) ==> r == s
    decreases |s|
  {
    if |s| < |pat| then s
    else if StartsWith(s, pat) then rep + ReplaceAll(s[|pat|..], pat, rep)
    else [s[0]] + ReplaceAll(s[1..], pat, rep)
  }

  /** Dropping the first character shifts every later occurrence by one. */
  lemma OccursAtShift(s: string, sub: string, i: nat)
    requires |s| > 0
    ensures OccursAt(s, sub, i + 1) <==> OccursAt(s[1..], sub, i)
  {
    if i + 1 + |sub| <= |s| {
      assert s[1..][i..i + |sub|] == s[i + 1..i + 1 + |sub|];
    }
  }

  /** The position-by-position test agrees with the declarative reading of
      `sub in s`: some index holds an occurrence. */
  lemma {:induction false} ContainsIff(s: string, sub: string)
    ensures Contains(s, sub) <==> exists i: nat :: OccursAt(s, sub, i)
    decreases |s|
  {
    if StartsWith(s, sub) {
      assert OccursAt(s, sub, 0);
    } else if |s| > 0 {
      ContainsIff(s[1..], sub);
      if Contains(s[1..], sub) {
        var i: nat :| OccursAt(s[1..], sub, i);
        OccursAtShift(s, sub, i);
      } else {
        forall i: nat | OccursAt(s, sub, i) ensures false {
          if i > 0 {
            OccursAtShift(s, sub, i - 1);
          }
        }
      }
    }
  }

  /** Replacing `pat` by something strictly shorter shortens the string
      exactly when `pat` occurs in it. */
  lemma {:induction false} ReplaceShrinksIff(s: string, pat: string, rep: string)
    requires |rep| < |pat|
    ensures Contains(s, pat) <==> |ReplaceAll(s, pat, rep)| < |s|
    decreases |s|
  {
    if |s| >= |pat| && !StartsWith(s, pat) {
      ReplaceShrinksIff(s[1..], pat, rep);
    }
  }

  /** An occurrence of `pat` at the very start is always replaced. */
  lemma LeadingOccurrenceReplaced(pat: string, rep: string, rest: string)
    requires |pat| > 0
    ensures ReplaceAll(pat + rest, pat, rep) == rep + ReplaceAll(rest, pat, rep)
  {
    assert StartsWith(pat + rest, pat);
    assert (pat + rest)[|pat|..] == rest;
  }

  /** A string with no occurrence of `sub` in either part can contain it only
      across the seam; so if no suffix of `p` followed by `h` starts with
      `sub`, neither does `p + h`. */
  lemma {:induction false} NotContainsAppend(p: string, h: string, sub: string)
    requires forall i :: 0 <= i < |p| ==> !StartsWith(p[i..] + h, sub)
    requires !Contains(h, sub)
    ensures !Contains(p + h, sub)
    decreases |p|
  {
    if |p| > 0 {
      assert p[0..] == p;
      assert !StartsWith(p + h, sub);
      forall i | 0 <= i < |p[1..]| ensures !StartsWith(p[1..][i..] + h, sub) {
        assert p[1..][i..] == p[i + 1..];
      }
      NotContainsAppend(p[1..], h, sub);
      assert (p + h)[1..] == p[1..] + h;
    } else {
      assert p + h == h;
    }
  }

  /** An occurrence stays an occurrence when text is put in front. */
  lemma {:induction false} ContainsAfter(p: string, s: string, sub: string)
    requires Contains(s, sub)
    ensures Contains(p + s, sub)
    decreases |p|
  {
    if p == [] {
      assert p + s == s;
    } else {
      ContainsAfter(p[1..], s, sub);
      assert (p + s)[1..] == p[1..] + s;
    }
  }

  /** A string lacking the first character of `sub` cannot contain it. */
  lemma {:induction false} NotContainsWithoutHead(s: string, sub: string)
    requires |sub| > 0 && sub[0] !in s
    ensures !Contains(s, sub)
    decreases |s|
  {
    if |s| > 0 {
      assert s[0] != sub[0];
      assert sub[0] !in s[1..];
      NotContainsWithoutHead(s[1..], sub);
    }
  }

  /** A prefix in which no occurrence of `pat` begins is left unchanged. */
  lemma {:induction false} ReplaceAllSkipsPrefix(p: string, s: string, pat: string, rep: string)
    requires |pat| > 0
    requires forall i :: 0 <= i < |p| ==> !StartsWith(p[i..] + s, pat)
    ensures ReplaceAll(p + s, pat, rep) == p + ReplaceAll(s, pat, rep)
    decreases |p|
  {
    if p == [] {
      assert p + s == s;
    } else {
      assert p[0..] == p;
      forall i | 0 <= i < |p[1..]| ensures !StartsWith(p[1..][i..] + s, pat) {
        assert p[1..][i..] == p[i + 1..];
      }
      ReplaceAllSkipsPrefix(p[1..], s, pat, rep);
      var r := ReplaceAll(s, pat, rep);
      if |p + s| < |pat| {
        assert r == s;
      } else {
        assert !StartsWith(p + s, pat);
        assert (p + s)[0] == p[0] && (p + s)[1..] == p[1..] + s;
        assert ReplaceAll(p + s, pat, rep) == [p[0]] + (p[1..] + r);
        assert [p[0]] + (p[1..] + r) == p + r;
      }
    }
  }
}
