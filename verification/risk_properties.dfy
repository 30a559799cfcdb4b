/** What the risk scorer promises: the score formula and its bounds, where
    the cap bites, the fixed first finding, the number and order of the
    findings, and what each of the four checks accepts. */
module RiskProperties {
  import opened Text
  import opened Pattern
  import opened Risk

  /** The score formula: the weights of the checks that fired, summed and
      capped at 100. */
  lemma ScoreFormula(c: Checks)
    ensures RawScore(c)
         == (if c.notHttps then 30 else 0) + (if c.tooLong then 15 else 0)
          + (if c.shortener then 25 else 0) + (if c.ipAddress then 40 else 0)
    ensures Score(c)
         == var raw := (if c.notHttps then 30 else 0) + (if c.tooLong then 15 else 0)
                     + (if c.shortener then 25 else 0) + (if c.ipAddress then 40 else 0);
            if raw < 100 then raw else 100
  {
    RawScoreByRule(c);
  }

  /** The uncapped score never exceeds 110, and the cap changes the score
      only when all four rules fire: then 110 becomes exactly 100. */
  lemma CapOnlyWhenAllFire(c: Checks)
    ensures RawScore(c) <= 110
    ensures RawScore(c) > ScoreCap <==> c == Checks(true, true, true, true)
    ensures Score(c) == (if c == Checks(true, true, true, true) then 100 else RawScore(c))
  {
    RawScoreByRule(c);
  }

  /** The first finding is always the HTTPS rule's, passing or failing;
      an `https://` URL never receives its +30. */
  lemma FirstFinding(url: string)
    ensures Findings(Inspect(url))[0]
         == if StartsWith(url, SecureScheme) then SecureFinding else Finding(NotHttps)
    ensures StartsWith(url, SecureScheme) ==> Score(Inspect(url)) <= 80
  {
    var c := Inspect(url);
    FindingsByRule(c);
    RawScoreByRule(c);
  }

  /** After the HTTPS finding come the findings of the other rules that
      fired, in rule order; so there is one finding more than the number of
      those rules that fired. */
  lemma FindingsInRuleOrder(c: Checks)
    ensures Findings(c) == Note(NotHttps, c) + FindingsOf(Triggered([TooLong, Shortener, IpAddress], c))
    ensures |Findings(c)| == 1 + |Triggered([TooLong, Shortener, IpAddress], c)|
  {
    var rest: seq<Rule> := [TooLong, Shortener, IpAddress];
    assert Rules[1..] == rest;
    var a := if Fires(NotHttps, c) then [NotHttps] else [];
    assert Triggered(Rules, c) == a + Triggered(rest, c);
    FindingsOfAppend(a, Triggered(rest, c));
    var pass: seq<string> := if c.notHttps then [] else [SecureFinding];
    assert pass + FindingsOf(a) == Note(NotHttps, c);
  }

  /** A finding other than the HTTPS one is reported exactly when its rule
      fired. */
  lemma FindingReportedIff(c: Checks, rule: Rule)
    requires rule != NotHttps
    ensures Finding(rule) in Findings(c) <==> Fires(rule, c)
  {
    var rest: seq<Rule> := [TooLong, Shortener, IpAddress];
    FindingsInRuleOrder(c);
    TriggeredIff(rest, c, rule);
    FindingsOfMember(Triggered(rest, c), rule);
  }

  /** Every finding in `FindingsOf(rules)` belongs to one of `rules`, and
      distinct rules have distinct findings. */
  lemma {:induction false} FindingsOfMember(rules: seq<Rule>, rule: Rule)
    ensures Finding(rule) in FindingsOf(rules) <==> rule in rules
    decreases |rules|
  {
    if rules != [] {
      FindingsOfMember(rules[1..], rule);
      assert rules == [rules[0]] + rules[1..];
      FindingDistinct(rules[0], rule);
    }
  }

  lemma FindingDistinct(r1: Rule, r2: Rule)
    ensures Finding(r1) == Finding(r2) <==> r1 == r2
  {
    if r1 != r2 {
      assert Finding(r1)[0..3] != Finding(r2)[0..3] || Finding(r1)[4] != Finding(r2)[4] || |Finding(r1)| != |Finding(r2)|;
    }
  }

  /** The length rule is strict: 75 characters pass, 76 do not. */
  lemma LengthBoundary(url: string)
    ensures |url| == 75 ==> !Inspect(url).tooLong
    ensures |url| == 76 ==> Inspect(url).tooLong
  {
  }

  /** `any(s in url for s in subs)` holds exactly when one of `subs` occurs
      somewhere in `url`. */
  lemma {:induction false} AnyOccursIff(url: string, subs: seq<string>)
    ensures AnyOccurs(url, subs)
        <==> exists k: nat, i: nat :: k < |subs| && OccursAt(url, subs[k], i)
    decreases |subs|
  {
    if subs != [] {
      ContainsIff(url, subs[0]);
      AnyOccursIff(url, subs[1..]);
      if Contains(url, subs[0]) {
        var i: nat :| OccursAt(url, subs[0], i);
        assert OccursAt(url, subs[0], i);
      } else if AnyOccurs(url, subs[1..]) {
        var k: nat, i: nat :| k < |subs[1..]| && OccursAt(url, subs[1..][k], i);
        assert OccursAt(url, subs[k + 1], i);
      }
    }
  }

  /** The shortener rule is a case-sensitive substring test for one of
      `bit.ly`, `t.co` and `tinyurl.com`, anywhere in the URL. */
  lemma ShortenerIff(url: string)
    ensures Inspect(url).shortener
        <==> exists k: nat, i: nat :: k < |Shorteners| && OccursAt(url, Shorteners[k], i)
  {
    AnyOccursIff(url, Shorteners);
  }

  /** A shortener in the host part fires the rule, whatever comes first. */
  lemma ShortenerInHost(p: string, h: string, k: nat, i: nat)
    requires k < |Shorteners| && OccursAt(h, Shorteners[k], i)
    ensures Inspect(p + h).shortener
  {
    ContainsIff(h, Shorteners[k]);
    ContainsAfter(p, h, Shorteners[k]);
    ContainsIff(p + h, Shorteners[k]);
    ShortenerIff(p + h);
  }

  /** The IP rule looks for the dotted-quad pattern at the start of the URL
      once every scheme string has been removed. */
  lemma IpAddressIff(url: string)
    ensures Inspect(url).ipAddress <==> DottedPrefix(SchemeStripped(url), 3)
  {
    DottedQuadIff(SchemeStripped(url));
  }

  /** No suffix of "http://" followed by anything starts with "https://". */
  lemma PlainSchemeNotSecure(h: string)
    ensures forall i :: 0 <= i < |PlainScheme| ==> !StartsWith(PlainScheme[i..] + h, SecureScheme)
  {
    forall i | 0 <= i < |PlainScheme| ensures !StartsWith(PlainScheme[i..] + h, SecureScheme) {
      var s := PlainScheme[i..] + h;
      if i == 0 {
        assert s[4] != SecureScheme[4];
      } else {
        assert s[0] != SecureScheme[0];
      }
    }
  }

  /** Whatever follows, `https://` passes the HTTPS rule and `http://` fails
      it. */
  lemma SchemeDecides(h: string)
    ensures !Inspect(SecureScheme + h).notHttps
    ensures Inspect(PlainScheme + h).notHttps
  {
    assert (SecureScheme + h)[..|SecureScheme|] == SecureScheme;
    assert (PlainScheme + h)[4] == ':';
  }

  /** When the rest of the URL holds no scheme string, the scheme removal
      strips exactly the leading `http://` or `https://`. */
  lemma LeadingSchemeRemoved(h: string)
    requires !Contains(h, SecureScheme) && !Contains(h, PlainScheme)
    ensures SchemeStripped(SecureScheme + h) == h
    ensures SchemeStripped(PlainScheme + h) == h
    ensures Inspect(SecureScheme + h).ipAddress <==> DottedPrefix(h, 3)
    ensures Inspect(PlainScheme + h).ipAddress <==> DottedPrefix(h, 3)
  {
    LeadingOccurrenceReplaced(SecureScheme, "", h);
    assert "" + h == h;
    PlainSchemeNotSecure(h);
    NotContainsAppend(PlainScheme, h, SecureScheme);
    LeadingOccurrenceReplaced(PlainScheme, "", h);
    IpAddressIff(SecureScheme + h);
    IpAddressIff(PlainScheme + h);
  }

  /** Neither scheme hides the start of a shortener: no suffix of
      `https://` or `http://` followed by anything starts with one. */
  lemma SchemeHidesNoShortener(p: string, h: string, sh: string)
    requires p == SecureScheme || p == PlainScheme
    requires sh in Shorteners
    ensures forall i :: 0 <= i < |p| ==> !StartsWith(p[i..] + h, sh)
  {
    forall i | 0 <= i < |p| ensures !StartsWith(p[i..] + h, sh) {
      var s := p[i..] + h;
      if p[i] == 't' {
        assert s[1] == p[i + 1] && s[1] != sh[1];
      } else {
        assert s[0] != sh[0];
      }
    }
  }

  /** A URL made of a scheme and a host part without the letters `b` and
      `t` does not trigger the shortener rule. */
  lemma NoShortenerAfterScheme(p: string, h: string)
    requires p == SecureScheme || p == PlainScheme
    requires 'b' !in h && 't' !in h
    ensures !Inspect(p + h).shortener
  {
    forall sh | sh in Shorteners ensures !Contains(p + h, sh) {
      NotContainsWithoutHead(h, sh);
      SchemeHidesNoShortener(p, h, sh);
      NotContainsAppend(p, h, sh);
    }
    assert Shorteners[1..][1..][1..] == [];
  }

  /** A host part without the letter `h` holds no scheme string, so only the
      leading scheme is removed. */
  lemma PlainHost(p: string, h: string)
    requires p == SecureScheme || p == PlainScheme
    requires 'h' !in h
    ensures SchemeStripped(p + h) == h
    ensures Inspect(p + h).ipAddress <==> DottedPrefix(h, 3)
  {
    NotContainsWithoutHead(h, SecureScheme);
    NotContainsWithoutHead(h, PlainScheme);
    LeadingSchemeRemoved(h);
  }

  /** A scheme followed by a host part without `h`, `b` or `t`: only the
      HTTPS, length and IP rules can fire, and the IP rule looks at the
      host part alone. */
  lemma InspectSchemeHost(p: string, h: string)
    requires p == SecureScheme || p == PlainScheme
    requires 'h' !in h && 'b' !in h && 't' !in h
    ensures Inspect(p + h) == Checks(p == PlainScheme, |p| + |h| > MaxLength, false, DottedPrefix(h, 3))
  {
    SchemeDecides(h);
    NoShortenerAfterScheme(p, h);
    PlainHost(p, h);
  }

  /** `t.co` occurs inside `microsoft.com`, so a secure, short link to that
      host scores 25. */
  lemma MicrosoftLooksShortened(url: string)
    requires url == "https://microsoft.com"
    ensures Inspect(url).shortener
    ensures Score(Inspect(url)) == 25
  {
    var h := "microsoft.com";
    assert url == SecureScheme + h && 'h' !in h;
    assert OccursAt(h, Shorteners[1], 8);
    ShortenerInHost(SecureScheme, h, 1, 8);
    PlainHost(SecureScheme, h);
    RawScoreByRule(Inspect(url));
  }

  /** Octets are not range-checked and anything may follow the fourth
      group: `http://999.1.2.3abc` fires the IP rule. */
  lemma IpOctetsUnchecked(url: string)
    requires url == "http://999.1.2.3abc"
    ensures Inspect(url).ipAddress
  {
    var h := "999.1.2.3abc";
    assert url == PlainScheme + h && 'h' !in h;
    assert h == "999" + "." + "1" + "." + "2" + "." + "3abc";
    DottedQuadOf("999", "1", "2", "3abc");
    PlainHost(PlainScheme, h);
  }

  /** A letter before the first digit defeats the match:
      `http://a1.2.3.4` does not fire the IP rule. */
  lemma IpNeedsLeadingDigit(url: string)
    requires url == "http://a1.2.3.4"
    ensures !Inspect(url).ipAddress
  {
    var h := "a1.2.3.4";
    assert url == PlainScheme + h && 'h' !in h;
    PlainHost(PlainScheme, h);
  }

  /** Every scheme string is removed, not only a leading one, and `https://`
      goes first: `http://https://` followed by a host part without `h`
      leaves the host part. */
  lemma NestedSchemesRemoved(h: string)
    requires 'h' !in h
    ensures SchemeStripped(PlainScheme + (SecureScheme + h)) == h
    ensures !DottedPrefix((PlainScheme + (SecureScheme + h))[|PlainScheme|..], 3)
  {
    assert (PlainScheme + (SecureScheme + h))[|PlainScheme|..] == SecureScheme + h;
    PlainSchemeNotSecure(SecureScheme + h);
    ReplaceAllSkipsPrefix(PlainScheme, SecureScheme + h, SecureScheme, "");
    LeadingOccurrenceReplaced(SecureScheme, "", h);
    NotContainsWithoutHead(h, SecureScheme);
    assert "" + h == h;
    assert ReplaceAll(PlainScheme + (SecureScheme + h), SecureScheme, "") == PlainScheme + h;
    LeadingOccurrenceReplaced(PlainScheme, "", h);
    NotContainsWithoutHead(h, PlainScheme);
  }

  /** `http://https://1.2.3.4` becomes `1.2.3.4` and fires the IP rule,
      although what follows its leading `http://` does not start with a
      digit. */
  lemma SchemeRemovedEverywhere(url: string)
    requires url == "http://https://1.2.3.4"
    ensures SchemeStripped(url) == "1.2.3.4"
    ensures Inspect(url).ipAddress
    ensures !DottedPrefix(url[|PlainScheme|..], 3)
  {
    var ip := "1" + "." + "2" + "." + "3" + "." + "4";
    assert url == PlainScheme + (SecureScheme + ip);
    QuadLetters(ip);
    NestedSchemesRemoved(ip);
    DottedQuadOf("1", "2", "3", "4");
    IpAddressIff(url);
  }

  /** `1.2.3.4` holds no scheme. */
  lemma QuadLetters(ip: string)
    requires ip == "1" + "." + "2" + "." + "3" + "." + "4"
    ensures 'h' !in ip && ip == "1.2.3.4"
  {
  }

  /** The checks on `https://example.com`: none fires. */
  lemma SecureHostChecks(url: string)
    requires url == "https://example.com"
    ensures Inspect(url) == Checks(false, false, false, false)
  {
    var h := "example.com";
    assert url == SecureScheme + h && 'h' !in h && 'b' !in h && 't' !in h;
    InspectSchemeHost(SecureScheme, h);
  }

  /** A secure link to an ordinary host scores 0 and reports only that the
      connection is secure. */
  lemma ScenarioSecureHost(url: string)
    requires url == "https://example.com"
    ensures Score(Inspect(url)) == 0
    ensures Findings(Inspect(url)) == [SecureFinding]
  {
    SecureHostChecks(url);
    var c := Checks(false, false, false, false);
    RawScoreByRule(c);
    FindingsByRule(c);
  }

  /** The checks on `http://bit.ly/x`: the HTTPS and shortener rules fire. */
  lemma ShortenerChecks(url: string)
    requires url == "http://bit.ly/x"
    ensures Inspect(url) == Checks(true, false, true, false)
  {
    var h := "bit.ly/x";
    assert url == PlainScheme + h && 'h' !in h;
    SchemeDecides(h);
    PlainHost(PlainScheme, h);
    assert OccursAt(h, Shorteners[0], 0);
    ShortenerInHost(PlainScheme, h, 0, 0);
  }

  /** A plain-HTTP shortened link scores 55: first the insecure finding,
      then the shortener finding. */
  lemma ScenarioShortener(url: string)
    requires url == "http://bit.ly/x"
    ensures Score(Inspect(url)) == 55
    ensures Findings(Inspect(url)) == [InsecureFinding, ShortenerFinding]
  {
    ShortenerChecks(url);
    var c := Checks(true, false, true, false);
    RawScoreByRule(c);
    FindingsByRule(c);
  }

  /** The checks on `http://192.168.1.1/page`: the HTTPS and IP rules fire. */
  lemma IpHostChecks(url: string)
    requires url == "http://192.168.1.1/page"
    ensures Inspect(url) == Checks(true, false, false, true)
  {
    var h := "192" + "." + "168" + "." + "1" + "." + "1/page";
    assert url == PlainScheme + h;
    IpHostLetters(h);
    DottedQuadOf("192", "168", "1", "1/page");
    InspectSchemeHost(PlainScheme, h);
  }

  /** `192.168.1.1/page` holds neither a scheme nor a shortener's first
      letter. */
  lemma IpHostLetters(h: string)
    requires h == "192" + "." + "168" + "." + "1" + "." + "1/page"
    ensures 'h' !in h && 'b' !in h && 't' !in h
  {
  }

  /** A plain-HTTP link to a bare IP address scores 70: the insecure
      finding, then the IP finding. */
  lemma ScenarioIpHost(url: string)
    requires url == "http://192.168.1.1/page"
    ensures Score(Inspect(url)) == 70
    ensures Findings(Inspect(url)) == [InsecureFinding, IpFinding]
  {
    IpHostChecks(url);
    var c := Checks(true, false, false, true);
    RawScoreByRule(c);
    FindingsByRule(c);
  }

  /** A 76-character `https://` URL with no shortener in it and no dotted
      quad at the start once its schemes are removed scores exactly 15: the
      secure finding, then the length finding. */
  lemma ScenarioLongSecure(url: string)
    requires |url| == 76 && StartsWith(url, SecureScheme)
    requires forall k: nat, i: nat :: k < |Shorteners| ==> !OccursAt(url, Shorteners[k], i)
    requires !DottedPrefix(SchemeStripped(url), 3)
    ensures Score(Inspect(url)) == 15
    ensures Findings(Inspect(url)) == [SecureFinding, LongFinding]
  {
    ShortenerIff(url);
    IpAddressIff(url);
    var c := Checks(false, true, false, false);
    assert Inspect(url) == c;
    RawScoreByRule(c);
    FindingsByRule(c);
  }

  /** A long plain-HTTP link that starts with a dotted quad once its schemes
      are removed, and has a shortener after the scheme, fires all four
      rules: its uncapped 110 is reported as 100, with all four findings in
      rule order. */
  lemma ScenarioCapped(h: string, k: nat, i: nat)
    requires |PlainScheme + h| > MaxLength
    requires DottedPrefix(SchemeStripped(PlainScheme + h), 3)
    requires k < |Shorteners| && OccursAt(h, Shorteners[k], i)
    ensures RawScore(Inspect(PlainScheme + h)) == 110
    ensures Score(Inspect(PlainScheme + h)) == 100
    ensures Findings(Inspect(PlainScheme + h)) == [InsecureFinding, LongFinding, ShortenerFinding, IpFinding]
  {
    AllChecksFire(h, k, i);
    var c := Checks(true, true, true, true);
    RawScoreByRule(c);
    FindingsByRule(c);
  }

  /** The checks on such a URL: all four fire. */
  lemma AllChecksFire(h: string, k: nat, i: nat)
    requires |PlainScheme + h| > MaxLength
    requires DottedPrefix(SchemeStripped(PlainScheme + h), 3)
    requires k < |Shorteners| && OccursAt(h, Shorteners[k], i)
    ensures Inspect(PlainScheme + h) == Checks(true, true, true, true)
  {
    SchemeDecides(h);
    IpAddressIff(PlainScheme + h);
    ShortenerInHost(PlainScheme, h, k, i);
  }
}
