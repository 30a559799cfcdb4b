/** The URL risk scorer of `analyze` in scanner/views.py: four independent
    rules, each with a weight and a finding, a running score capped at 100 and
    an ordered list of findings.

    `Inspect` runs the four checks on a URL and records their outcomes;
    `Score` and `Findings` state, from the fixed rule list, what those
    outcomes add up to; `Evaluate` computes the report the way the source
    does, one check after another. */
module Risk {
  import opened Text
  import opened Pattern

  /** The four checks, in the order the source runs them. */
  datatype Rule = NotHttps | TooLong | Shortener | IpAddress

  const Rules: seq<Rule> := [NotHttps, TooLong, Shortener, IpAddress]

  const SecureScheme: string := "https://"
  const PlainScheme: string := "http://"
  /** A URL longer than this many characters is "unusually long". */
  const MaxLength: nat := 75
  const Shorteners: seq<string> := ["bit.ly", "t.co", "tinyurl.com"]
  const ScoreCap: nat := 100

  /** The finding reported when the HTTPS rule passes. */
  const SecureFinding: string := "Uses a secure HTTPS connection."

  const InsecureFinding: string := "Connection is not secure (no HTTPS)."
  const LongFinding: string := "URL is unusually long."
  const ShortenerFinding: string := "Uses a URL shortener, which can hide the final destination."
  const IpFinding: string := "URL is a direct IP address, which is highly suspicious."

  /** What `rule` adds to the score when it fires: never nothing, and never
      more than the IP rule's 40. */
  function Weight(rule: Rule): (w: nat)
    ensures 0 < w <= 40
  {
    match rule
    case NotHttps => 30
    case TooLong => 15
    case Shortener => 25
    case IpAddress => 40
  }

  /** The finding reported when `rule` fires; none of them reads as the
      secure-connection message. */
  function Finding(rule: Rule): (f: string)
    ensures f != SecureFinding
  {
    match rule
    case NotHttps => InsecureFinding
    case TooLong => LongFinding
    case Shortener => ShortenerFinding
    case IpAddress => IpFinding
  }

  /** Python's `any(s in url for s in subs)`: some string of `subs` occurs
      in `url`. */
  function AnyOccurs(url: string, subs: seq<string>): (b: bool)
    ensures b <==> exists k :: 0 <= k < |subs| && Contains(url, subs[k])
    decreases |subs|
  {
    |subs| > 0 && (Contains(url, subs[0]) || AnyOccurs(url, subs[1..]))
  }

  /** `url.replace("https://", "").replace("http://", "")`: every occurrence
      of either scheme is removed, wherever it stands, `https://` first. */
  function SchemeStripped(url: string): (r: string)
    ensures |r| <= |url|
  {
    ReplaceAll(ReplaceAll(url, SecureScheme, ""), PlainScheme, "")
  }

  /** The outcome of each of the four checks on one URL. */
  datatype Checks = Checks(notHttps: bool, tooLong: bool, shortener: bool, ipAddress: bool)

  /** Runs the four checks. None of them depends on another. Passing the
      HTTPS rule takes at least the eight characters of `https://`, a
      shortener at least four characters, and a dotted quad at least seven. */
  function Inspect(url: string): (c: Checks)
    ensures !c.notHttps ==> |url| >= |SecureScheme|
    ensures c.shortener ==> |url| >= 4
    ensures c.ipAddress ==> |url| >= 7
  {
    DottedQuadIff(SchemeStripped(url));
    Checks(
      !StartsWith(url, SecureScheme),
      |url| > MaxLength,
      AnyOccurs(url, Shorteners),
      MatchesPrefix(DottedQuad, SchemeStripped(url)))
  }

  /** Whether `rule` fired, according to the recorded outcomes `c`. */
  predicate Fires(rule: Rule, c: Checks)
  {
    match rule
    case NotHttps => c.notHttps
    case TooLong => c.tooLong
    case Shortener => c.shortener
    case IpAddress => c.ipAddress
  }

  /** The rules of `rules` that fired, in their original order. */
  function Triggered(rules: seq<Rule>, c: Checks): (t: seq<Rule>)
    ensures |t| <= |rules|
    decreases |rules|
  {
    if rules == [] then []
    else (if Fires(rules[0], c) then [rules[0]] else []) + Triggered(rules[1..], c)
  }

  function TotalWeight(rules: seq<Rule>): nat
    decreases |rules|
  {
    if rules == [] then 0 else Weight(rules[0]) + TotalWeight(rules[1..])
  }

  function FindingsOf(rules: seq<Rule>): (f: seq<string>)
    ensures |f| == |rules|
    decreases |rules|
  {
    if rules == [] then [] else [Finding(rules[0])] + FindingsOf(rules[1..])
  }

  /** The sum of the weights of the rules that fired, before the cap. */
  function RawScore(c: Checks): nat
  {
    TotalWeight(Triggered(Rules, c))
  }

  /** `min(score, 100)`. */
  function Score(c: Checks): (s: int)
    ensures 0 <= s <= ScoreCap
    ensures s <= RawScore(c)
    ensures s == RawScore(c) || s == ScoreCap
  {
    if RawScore(c) < ScoreCap then RawScore(c) else ScoreCap
  }

  /** The HTTPS rule always reports, passing or not; the others report only
      when they fire; all in rule order. */
  function Findings(c: Checks): (f: seq<string>)
    ensures |f| >= 1
  {
    (if c.notHttps then [] else [SecureFinding]) + FindingsOf(Triggered(Rules, c))
  }

  /** A rule is kept exactly when it is in the list and fired. */
  lemma {:induction false} TriggeredIff(rules: seq<Rule>, c: Checks, rule: Rule)
    ensures rule in Triggered(rules, c) <==> rule in rules && Fires(rule, c)
    decreases |rules|
  {
    if rules != [] {
      TriggeredIff(rules[1..], c, rule);
      assert rules == [rules[0]] + rules[1..];
    }
  }

  /** What `rule` adds to the uncapped score. */
  function Contribution(rule: Rule, c: Checks): nat
  {
    if Fires(rule, c) then Weight(rule) else 0
  }

  /** The finding `rule` reports, if any: the HTTPS rule always reports one,
      the others only when they fire. */
  function Note(rule: Rule, c: Checks): seq<string>
  {
    if Fires(rule, c) then [Finding(rule)]
    else if rule == NotHttps then [SecureFinding]
    else []
  }

  /** `[rule]` when `rule` fired, otherwise empty. */
  function IfFires(rule: Rule, c: Checks): seq<Rule>
  {
    if Fires(rule, c) then [rule] else []
  }

  /** The fixed rule list filters to the four rules taken one by one. */
  lemma TriggeredRules(c: Checks)
    ensures Triggered(Rules, c) == IfFires(NotHttps, c) + IfFires(TooLong, c) + IfFires(Shortener, c) + IfFires(IpAddress, c)
  {
    var r3: seq<Rule> := [IpAddress];
    var r2: seq<Rule> := [Shortener, IpAddress];
    var r1: seq<Rule> := [TooLong, Shortener, IpAddress];
    assert Triggered(r3, c) == IfFires(IpAddress, c) by {
      assert r3[1..] == [];
    }
    assert Triggered(r2, c) == IfFires(Shortener, c) + Triggered(r3, c) by {
      assert r2[1..] == r3;
    }
    assert Triggered(r1, c) == IfFires(TooLong, c) + Triggered(r2, c) by {
      assert r1[1..] == r2;
    }
    assert Triggered(Rules, c) == IfFires(NotHttps, c) + Triggered(r1, c) by {
      assert Rules[1..] == r1;
    }
  }

  lemma {:induction false} TotalWeightAppend(a: seq<Rule>, b: seq<Rule>)
    ensures TotalWeight(a + b) == TotalWeight(a) + TotalWeight(b)
    decreases |a|
  {
    if a == [] {
      assert a + b == b;
    } else {
      assert (a + b)[1..] == a[1..] + b;
      TotalWeightAppend(a[1..], b);
    }
  }

  lemma {:induction false} FindingsOfAppend(a: seq<Rule>, b: seq<Rule>)
    ensures FindingsOf(a + b) == FindingsOf(a) + FindingsOf(b)
    decreases |a|
  {
    if a == [] {
      assert a + b == b;
    } else {
      assert (a + b)[1..] == a[1..] + b;
      FindingsOfAppend(a[1..], b);
    }
  }

  /** The uncapped score is the sum of the four rules' contributions. */
  lemma RawScoreByRule(c: Checks)
    ensures RawScore(c) == Contribution(NotHttps, c) + Contribution(TooLong, c)
                         + Contribution(Shortener, c) + Contribution(IpAddress, c)
  {
    var a, b, d, e := IfFires(NotHttps, c), IfFires(TooLong, c), IfFires(Shortener, c), IfFires(IpAddress, c);
    TriggeredRules(c);
    TotalWeightAppend(a + b + d, e);
    TotalWeightAppend(a + b, d);
    TotalWeightAppend(a, b);
  }

  /** Concatenation regrouped; proved on its own, away from the long finding
      texts, where it is cheap. */
  lemma Reassociate<T>(p: seq<T>, a: seq<T>, b: seq<T>, d: seq<T>, e: seq<T>)
    ensures p + (a + b + d + e) == (p + a) + b + d + e
  {
  }

  /** The findings are the four rules' notes, in rule order. */
  lemma FindingsByRule(c: Checks)
    ensures Findings(c) == Note(NotHttps, c) + Note(TooLong, c)
                         + Note(Shortener, c) + Note(IpAddress, c)
  {
    var a, b, d, e := IfFires(NotHttps, c), IfFires(TooLong, c), IfFires(Shortener, c), IfFires(IpAddress, c);
    TriggeredRules(c);
    FindingsOfAppend(a + b + d, e);
    FindingsOfAppend(a + b, d);
    FindingsOfAppend(a, b);
    var pass: seq<string> := if c.notHttps then [] else [SecureFinding];
    var fa, fb, fd, fe := FindingsOf(a), FindingsOf(b), FindingsOf(d), FindingsOf(e);
    assert Findings(c) == pass + (fa + fb + fd + fe);
    assert pass + fa == Note(NotHttps, c);
    assert fb == Note(TooLong, c);
    assert fd == Note(Shortener, c);
    assert fe == Note(IpAddress, c);
    Reassociate(pass, fa, fb, fd, fe);
  }

  datatype Report = Report(score: int, details: seq<string>)

  /** The one validation error the scorer itself raises: "URL not provided". */
  datatype Error = UrlNotProvided

  datatype Outcome = Ok(report: Report) | Err(error: Error)

  /** The scoring body of `analyze`: reject an empty URL, then run the four
      checks in order, adding each triggered weight to `score` and appending
      each finding to `details`, and cap the score at 100. */
  method Evaluate(url: string) returns (r: Outcome)
    ensures r.Err? <==> url == []
    ensures r.Err? ==> r.error == UrlNotProvided
    ensures r.Ok? ==> r.report == Report(Score(Inspect(url)), Findings(Inspect(url)))
  {
    if url == [] {
      return Err(UrlNotProvided);
    }
    ghost var c := Inspect(url);
    var score := 0;
    var details: seq<string> := [];

    if !StartsWith(url, SecureScheme) {
      score := score + 30;
      details := details + [Finding(NotHttps)];
    } else {
      details := details + [SecureFinding];
    }
    assert score == Contribution(NotHttps, c) && details == Note(NotHttps, c);

    if |url| > MaxLength {
      score := score + 15;
      details := details + [Finding(TooLong)];
    }
    assert score == Contribution(NotHttps, c) + Contribution(TooLong, c);
    assert details == Note(NotHttps, c) + Note(TooLong, c);

    if AnyOccurs(url, Shorteners) {
      score := score + 25;
      details := details + [Finding(Shortener)];
    }
    assert score == Contribution(NotHttps, c) + Contribution(TooLong, c) + Contribution(Shortener, c);
    assert details == Note(NotHttps, c) + Note(TooLong, c) + Note(Shortener, c);

    if MatchesPrefix(DottedQuad, SchemeStripped(url)) {
      score := score + 40;
      details := details + [Finding(IpAddress)];
    }
    assert score == Contribution(NotHttps, c) + Contribution(TooLong, c)
                  + Contribution(Shortener, c) + Contribution(IpAddress, c);
    assert details == Note(NotHttps, c) + Note(TooLong, c) + Note(Shortener, c) + Note(IpAddress, c);
    RawScoreByRule(c);
    FindingsByRule(c);

    var finalScore := if score < ScoreCap then score else ScoreCap;
    assert finalScore == Score(c);
    r := Ok(Report(finalScore, details));
  }
}
