/** The part of Python's `re.match` that the IP-address rule uses: a pattern
    built from runs of ASCII digits with a repetition range (`\d{lo,hi}`) and
    literal characters, matched with backtracking at the start of the string
    only. A match need not reach the end of the string. */
module Pattern {

  /** `\d`, restricted to the ASCII digits. */
  predicate IsDigit(c: char)
  {
    '0' <= c <= '9'
  }

  datatype Atom =
    | Digits(lo: nat, hi: nat)  // `\d{lo,hi}`
    | Literal(c: char)          // an escaped literal such as `\.`

  /** `^\d{1,3}\.\d{1,3}\.\d{1,3}\.\d{1,3}`, the dotted-quad pattern. */
  const DottedQuad: seq<Atom> := [
    Digits(1, 3), Literal('.'), Digits(1, 3), Literal('.'),
    Digits(1, 3), Literal('.'), Digits(1, 3)
  ]

  /** The fewest characters a match of `p` can consume. */
  function MinLength(p: seq<Atom>): nat
    decreases |p|
  {
    if p == [] then 0
    else (match p[0] case Digits(lo, _) => lo case Literal(_) => 1) + MinLength(p[1..])
  }

  /** True when some way of matching `p` consumes a prefix of `s`; this is
      the success case of `re.match(p, s)`, whose backtracking search tries
      every repetition count before it gives up. A match needs at least
      `MinLength(p)` characters. */
  function MatchesPrefix(p: seq<Atom>, s: string): (b: bool)
    ensures b ==> MinLength(p) <= |s|
    decreases |s|, |p|, 1
  {
    if p == [] then true
    else match p[0]
      case Literal(c) => |s| > 0 && s[0] == c && MatchesPrefix(p[1..], s[1..])
      case Digits(lo, hi) => MatchRepeat(lo, hi, p[1..], s)
  }

  /** `\d{lo,hi}` followed by `rest` matches a prefix of `s`: either the
      repetition may stop here, or it takes one more digit. It needs at
      least `lo` digits before `rest`, and an empty range never matches. */
  function MatchRepeat(lo: nat, hi: nat, rest: seq<Atom>, s: string): (b: bool)
    ensures b ==> lo <= LeadingDigits(s)
    ensures b ==> lo + MinLength(rest) <= |s|
    ensures b ==> lo == 0 || lo <= hi
    decreases |s|, |rest| + 1, 0
  {
    (lo == 0 && MatchesPrefix(rest, s))
    || (hi > 0 && |s| > 0 && IsDigit(s[0])
        && MatchRepeat(if lo == 0 then 0 else lo - 1, hi - 1, rest, s[1..]))
  }

  /** The length of the longest run of digits at the start of `s`. */
  function LeadingDigits(s: string): (n: nat)
    ensures n <= |s|
    ensures forall j :: 0 <= j < n ==> IsDigit(s[j])
    ensures n < |s| ==> !IsDigit(s[n])
    decreases |s|
  {
    if |s| > 0 && IsDigit(s[0]) then 1 + LeadingDigits(s[1..]) else 0
  }

  /** The ensures of `LeadingDigits` determine it: a run of `n` digits not
      followed by another digit is the leading run. */
  lemma {:induction false} LeadingDigitsIs(s: string, n: nat)
    requires n <= |s|
    requires forall j :: 0 <= j < n ==> IsDigit(s[j])
    requires n < |s| ==> !IsDigit(s[n])
    ensures LeadingDigits(s) == n
    decreases n
  {
    if n > 0 {
      LeadingDigitsIs(s[1..], n - 1);
    }
  }

  /** A hand-written scanner for `dots` groups of one to three digits, each
      followed by a dot, and then one more group. Because a dot is not a
      digit, a group ends exactly where the leading run of digits ends; the
      last group only needs a first digit, whatever follows it. So a match
      starts with a digit and spans at least a digit and a dot per group. */
  function DottedPrefix(s: string, dots: nat): (b: bool)
    ensures b ==> |s| > 0 && IsDigit(s[0])
    ensures b ==> 2 * dots + 1 <= |s|
    decreases dots
  {
    var n := LeadingDigits(s);
    if dots == 0 then 1 <= n
    else 1 <= n <= 3 && n < |s| && s[n] == '.' && DottedPrefix(s[n + 1..], dots - 1)
  }

  /** `^\d{1,3}(\.\d{1,3}){dots}`, the pattern the scanner recognises. */
  function DottedPattern(dots: nat): (p: seq<Atom>)
    ensures |p| == 2 * dots + 1
    decreases dots
  {
    if dots == 0 then [Digits(1, 3)]
    else [Digits(1, 3), Literal('.')] + DottedPattern(dots - 1)
  }

  /** The repetition before a literal dot consumes exactly the leading run of
      digits, which must have an allowed length and be followed by the dot. */
  lemma {:induction false} RepeatThenDot(lo: nat, hi: nat, rest: seq<Atom>, s: string)
    ensures MatchRepeat(lo, hi, [Literal('.')] + rest, s)
        <==> var n := LeadingDigits(s);
             lo <= n <= hi && n < |s| && s[n] == '.' && MatchesPrefix(rest, s[n + 1..])
    decreases |s|
  {
    var p := [Literal('.')] + rest;
    assert p[1..] == rest;
    if hi > 0 && |s| > 0 && IsDigit(s[0]) {
      var t := s[1..];
      RepeatThenDot(if lo == 0 then 0 else lo - 1, hi - 1, rest, t);
      var m := LeadingDigits(t);
      assert LeadingDigits(s) == m + 1;
      if m < |t| {
        assert s[m + 1] == t[m];
        assert s[m + 2..] == t[m + 1..];
      }
    }
  }

  /** The final repetition, with nothing after it, needs only its minimum
      number of leading digits. */
  lemma {:induction false} RepeatAtEnd(lo: nat, hi: nat, s: string)
    ensures MatchRepeat(lo, hi, [], s) <==> lo == 0 || (lo <= hi && lo <= LeadingDigits(s))
    decreases |s|
  {
    if lo > 0 && |s| > 0 && IsDigit(s[0]) {
      RepeatAtEnd(lo - 1, if hi == 0 then 0 else hi - 1, s[1..]);
    }
  }

  /** The backtracking matcher and the scanner agree on every string. */
  lemma {:induction false} DottedPatternIff(dots: nat, s: string)
    ensures MatchesPrefix(DottedPattern(dots), s) <==> DottedPrefix(s, dots)
    decreases dots
  {
    var p := DottedPattern(dots);
    if dots == 0 {
      RepeatAtEnd(1, 3, s);
    } else {
      var rest := DottedPattern(dots - 1);
      assert p[1..] == [Literal('.')] + rest;
      RepeatThenDot(1, 3, rest, s);
      var n := LeadingDigits(s);
      if n < |s| {
        DottedPatternIff(dots - 1, s[n + 1..]);
      }
    }
  }

  /** `re.match` of the dotted-quad pattern succeeds exactly when the first
      three groups are runs of one to three digits each ended by a dot and a
      digit follows the third dot; octet values are never range-checked and
      anything may follow the fourth group. */
  lemma DottedQuadIff(s: string)
    ensures MatchesPrefix(DottedQuad, s) <==> DottedPrefix(s, 3)
  {
    assert DottedPattern(3) == DottedQuad;
    DottedPatternIff(3, s);
  }

  /** One to three ASCII digits, what `\d{1,3}` consumes. */
  predicate DigitGroup(g: string)
  {
    1 <= |g| <= 3 && forall j :: 0 <= j < |g| ==> IsDigit(g[j])
  }

  /** The scanner steps over a digit group and its dot. */
  lemma GroupThenDot(g: string, rest: string, dots: nat)
    requires DigitGroup(g) && dots > 0
    ensures DottedPrefix(g + "." + rest, dots) <==> DottedPrefix(rest, dots - 1)
  {
    var s := g + "." + rest;
    LeadingDigitsIs(s, |g|);
    assert s[|g| + 1..] == rest;
  }

  /** Any four digit groups joined by dots match, whatever the octet values
      and whatever follows the first digit of the last group. */
  lemma DottedQuadOf(a: string, b: string, c: string, d: string)
    requires DigitGroup(a) && DigitGroup(b) && DigitGroup(c)
    requires |d| > 0 && IsDigit(d[0])
    ensures DottedPrefix(a + "." + b + "." + c + "." + d, 3)
  {
    var s3 := c + "." + d;
    var s2 := b + "." + s3;
    assert a + "." + b + "." + c + "." + d == a + "." + s2;
    GroupThenDot(a, s2, 3);
    GroupThenDot(b, s3, 2);
    GroupThenDot(c, d, 1);
  }
}
