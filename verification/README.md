# URL risk scorer

A Dafny model of the risk scorer at the heart of the `analyze` endpoint of
the Cyber Shield scanner (scanner/views.py). Given a URL string, the scorer
rejects an empty URL with the error "URL not provided". Otherwise it runs four
independent checks in a fixed order:

1. no `https://` prefix: +30, "Connection is not secure (no HTTPS).";
   otherwise the finding "Uses a secure HTTPS connection." (+0);
2. more than 75 characters: +15, "URL is unusually long.";
3. one of `bit.ly`, `t.co`, `tinyurl.com` occurs anywhere (case-sensitive
   substring): +25, the shortener finding;
4. after every `https://` and then every `http://` is removed, the rest
   begins with `\d{1,3}\.\d{1,3}\.\d{1,3}\.\d{1,3}`: +40, the IP finding.

The score is the sum of those weights, capped at 100. The findings are
reported in rule order.

## Structure

- `text.dfy` (module `Text`): the Python string operations the scorer uses.
  `StartsWith` models `str.startswith`, and its contract is already the
  character-by-character reading. `Contains` models `sub in s`, and
  `ReplaceAll` models `str.replace`; lemmas tie each of these two to a
  declarative reading.
- `pattern.dfy` (module `Pattern`): the subset of `re.match` that the IP rule
  needs. `MatchesPrefix` is a backtracking matcher for digit repetitions and
  literal characters, anchored at the start. `DottedPrefix` is a direct
  scanner. `DottedPatternIff` proves that the two agree on every string.
- `risk.dfy` (module `Risk`): the rules, weights and findings as data, and
  the specification functions `Inspect`, `Score` and `Findings`. It also
  holds the method `Evaluate`, which follows the source step by step: it
  starts with `score = 0` and `details = []`, adds and appends per check,
  then takes `min(score, 100)`. `Evaluate` is proved to return exactly the
  specified report.
- `risk_properties.dfy` (module `RiskProperties`): the score formula and
  bounds, the fixed first finding, the count and order of findings, the
  length boundary, the shortener and IP rules stated declaratively, and the
  worked scenarios.

The IP rule follows the code at scanner/views.py:62, which calls
`replace("https://", "")` and then `replace("http://", "")`. Each call
removes every occurrence of its scheme, wherever it stands, and `https://`
goes first. So `http://https://1.2.3.4` becomes `1.2.3.4` and fires the rule
(`SchemeRemovedEverywhere`). A reading that strips only one leading scheme
would give a different answer here. The model follows the code.

The rejection of an empty URL is modelled as `Err(UrlNotProvided)`, after
the message in the source.

## Model

| member | source | states |
|---|---|---|
| Text.StartsWith | scanner/views.py:42 | `startswith` holds exactly when the prefix fits and agrees with the URL character by character |
| Text.Contains | scanner/views.py:55 | the `in` test: the empty string occurs everywhere, and an occurrence needs room (a string never contains a longer one) |
| Text.ReplaceAll | scanner/views.py:62 | `str.replace` with an empty replacement never makes the string longer, and leaves it unchanged when the pattern does not occur |
| Text.ContainsIff | scanner/views.py:55 | the left-to-right `in` test holds exactly when the substring occurs at some index |
| Text.ContainsAfter | scanner/views.py:55 | putting text in front of a string keeps every occurrence in it |
| Text.NotContainsAppend | scanner/views.py:55 | if no suffix of the front part followed by the rest starts with the substring, and the rest does not contain it, the whole does not contain it |
| Text.NotContainsWithoutHead | scanner/views.py:55 | a string lacking the first character of the substring does not contain it |
| Text.ReplaceShrinksIff | scanner/views.py:62 | removing a scheme shortens the URL exactly when the scheme occurs in it |
| Text.LeadingOccurrenceReplaced | scanner/views.py:62 | an occurrence at the very start is always replaced |
| Text.ReplaceAllSkipsPrefix | scanner/views.py:62 | a front part where no occurrence begins passes through the replacement unchanged |
| Pattern.MatchesPrefix | scanner/views.py:62 | `re.match` with backtracking, anchored at the start: a match needs at least the pattern's minimum length |
| Pattern.MatchRepeat | scanner/views.py:62 | `\d{lo,hi}` followed by the rest of the pattern: it needs at least `lo` leading digits and room for the rest after them, and an empty range (`lo > hi`) never matches |
| Pattern.LeadingDigits | scanner/views.py:62 | the run of `\d` at the start: every character in it is a digit, and the next one is not |
| Pattern.LeadingDigitsIs | scanner/views.py:62 | those properties determine the run's length |
| Pattern.RepeatThenDot | scanner/views.py:62 | `\d{lo,hi}\.` with backtracking consumes exactly the leading digit run, which must have an allowed length and be followed by a dot |
| Pattern.RepeatAtEnd | scanner/views.py:62 | a trailing `\d{lo,hi}` needs only `lo` leading digits; whatever follows is ignored |
| Pattern.DottedPatternIff | scanner/views.py:62 | the backtracking matcher and the digit-group scanner agree on every string, for any number of groups |
| Pattern.DottedPrefix | scanner/views.py:62 | the digit-group scanner: an accepted string starts with a digit and has at least two characters per dot plus one |
| Pattern.DottedQuadIff | scanner/views.py:62 | `re.match` of the dotted-quad pattern succeeds exactly when the scanner accepts three dotted groups and a fourth digit |
| Pattern.GroupThenDot | scanner/views.py:62 | the scanner steps over one group of one to three digits and its dot |
| Pattern.DottedQuadOf | scanner/views.py:62 | any four digit groups joined by dots match, whatever the octet values and whatever follows |
| Risk.Weight | scanner/views.py:43-63 | every rule adds a positive weight of at most 40 (the exact 30/15/25/40 are stated by `RiskProperties.ScoreFormula`) |
| Risk.Finding | scanner/views.py:44-64 | no rule's finding reads as the secure-connection message |
| Risk.AnyOccurs | scanner/views.py:55 | `any(s in url for s in subs)` holds exactly when some string of `subs` is contained in the URL |
| Risk.SchemeStripped | scanner/views.py:62 | removing the schemes never lengthens the URL |
| Risk.Inspect | scanner/views.py:42-62 | the four checks on one URL: passing the HTTPS rule takes at least 8 characters, a shortener at least 4, and a dotted quad at least 7 |
| Risk.Triggered | scanner/views.py:42-64 | the rules that fired are at most the rules checked |
| Risk.TriggeredIff | scanner/views.py:42-64 | a rule is among those that fired exactly when it was checked and its condition held |
| Risk.TriggeredRules | scanner/views.py:42-64 | the fixed rule list fires rule by rule in source order |
| Risk.Score | scanner/views.py:67 | the reported score lies in [0, 100], is at most the raw sum, and is either the raw sum or 100 |
| Risk.Findings | scanner/views.py:42-46 | there is always at least one finding |
| Risk.RawScoreByRule | scanner/views.py:38-64 | the raw score is the sum of each rule's contribution |
| Risk.FindingsByRule | scanner/views.py:39-64 | the findings are each rule's note, concatenated in rule order |
| Risk.Evaluate | scanner/views.py:34-67 | an empty URL, and only an empty URL, gives the "URL not provided" error; otherwise the step-by-step accumulation returns exactly the capped score and the ordered findings of the four checks |
| RiskProperties.ScoreFormula | scanner/views.py:42-67 | the raw score is 30·[no https] + 15·[long] + 25·[shortener] + 40·[IP], and the score is that sum capped at 100 |
| RiskProperties.CapOnlyWhenAllFire | scanner/views.py:67 | the raw score never exceeds 110; it exceeds 100 exactly when all four rules fire, and then the score is exactly 100 |
| RiskProperties.FirstFinding | scanner/views.py:42-46 | the first finding is the secure-connection one if the URL starts with `https://`, and the insecure one otherwise; an `https://` URL scores at most 80 |
| RiskProperties.FindingsInRuleOrder | scanner/views.py:44-64 | the findings are the HTTPS note followed by the findings of the length, shortener and IP rules that fired, in that order; their number is one plus the number of those rules that fired |
| RiskProperties.FindingReportedIff | scanner/views.py:49-64 | the length, shortener and IP findings are reported exactly when their rule fires |
| RiskProperties.FindingsOfMember | scanner/views.py:44-64 | a rule's finding is in a list of findings exactly when the rule is in the list of rules |
| RiskProperties.FindingDistinct | scanner/views.py:44-64 | different rules have different findings |
| RiskProperties.LengthBoundary | scanner/views.py:49 | 75 characters do not fire the length rule, 76 do |
| RiskProperties.AnyOccursIff | scanner/views.py:55 | `any(s in url for s in subs)` holds exactly when some string of `subs` occurs at some index |
| RiskProperties.ShortenerIff | scanner/views.py:54-55 | the shortener rule fires exactly when one of the three shortener strings occurs anywhere in the URL |
| RiskProperties.ShortenerInHost | scanner/views.py:54-55 | a shortener string anywhere after the scheme fires the rule |
| RiskProperties.IpAddressIff | scanner/views.py:62 | the IP rule fires exactly when the scanner accepts the URL with its schemes removed |
| RiskProperties.PlainSchemeNotSecure | scanner/views.py:62 | no suffix of `http://` followed by anything starts with `https://` |
| RiskProperties.SchemeDecides | scanner/views.py:42 | whatever follows, `https://` passes the HTTPS rule and `http://` fails it |
| RiskProperties.LeadingSchemeRemoved | scanner/views.py:62 | when the rest holds no scheme string, exactly the leading `https://` or `http://` is removed, and the IP rule looks at the rest |
| RiskProperties.SchemeHidesNoShortener | scanner/views.py:55 | no shortener string starts inside either scheme |
| RiskProperties.NoShortenerAfterScheme | scanner/views.py:55 | a scheme followed by text without `b` and `t` does not fire the shortener rule |
| RiskProperties.PlainHost | scanner/views.py:62 | a scheme followed by text without `h` is stripped to that text |
| RiskProperties.InspectSchemeHost | scanner/views.py:42-62 | for a scheme followed by text without `h`, `b` or `t`: the HTTPS rule fires exactly for `http://`, the shortener rule never fires, and the IP rule looks only at the text |
| RiskProperties.MicrosoftLooksShortened | scanner/views.py:54-55 | `t.co` occurs in `https://microsoft.com`, which therefore scores 25 |
| RiskProperties.IpOctetsUnchecked | scanner/views.py:62 | `http://999.1.2.3abc` fires the IP rule: octets are not range-checked and trailing text is allowed |
| RiskProperties.IpNeedsLeadingDigit | scanner/views.py:62 | `http://a1.2.3.4` does not fire the IP rule |
| RiskProperties.NestedSchemesRemoved | scanner/views.py:62 | `http://https://` followed by text without `h` is stripped to that text, while the text after the leading `http://` is not a match |
| RiskProperties.SchemeRemovedEverywhere | scanner/views.py:62 | `http://https://1.2.3.4` is stripped to `1.2.3.4` and fires the IP rule |
| RiskProperties.SecureHostChecks | scanner/views.py:42-64 | no check fires on `https://example.com` |
| RiskProperties.ScenarioSecureHost | scanner/views.py:42-67 | `https://example.com` scores 0, with only the secure-connection finding |
| RiskProperties.ShortenerChecks | scanner/views.py:42-64 | on `http://bit.ly/x` exactly the HTTPS and shortener rules fire |
| RiskProperties.ScenarioShortener | scanner/views.py:42-67 | `http://bit.ly/x` scores 55, with the insecure finding and then the shortener finding |
| RiskProperties.IpHostChecks | scanner/views.py:42-64 | on `http://192.168.1.1/page` exactly the HTTPS and IP rules fire |
| RiskProperties.ScenarioIpHost | scanner/views.py:42-67 | `http://192.168.1.1/page` scores 70, with the insecure finding and then the IP finding |
| RiskProperties.ScenarioLongSecure | scanner/views.py:42-67 | any 76-character `https://` URL with no shortener string in it and no dotted quad at the start once its schemes are removed scores 15, with the secure finding and then the length finding |
| RiskProperties.AllChecksFire | scanner/views.py:42-64 | any `http://` URL over 75 characters that starts with a dotted quad once its schemes are removed and has a shortener string after the scheme fires all four rules |
| RiskProperties.ScenarioCapped | scanner/views.py:42-67 | such a URL has a raw score of 110, reports 100, and lists all four findings in rule order |

## Left out

- `index` and its template rendering (scanner/views.py:12-17): page display only, no scoring logic.
- The Django request handling around the scorer (scanner/views.py:22-33, 70-80): the POST method check and its 405 response, `json.loads` of the body and the 400 on a decoding error, building the `JsonResponse`, and `csrf_exempt`. These are framework and transport calls. `Evaluate` returns the score and findings as a value instead.
- A missing `url` key, `null`, or a non-string `url` in the JSON body. The input is modelled as a string, so the only falsy input is the empty string. A falsy non-string (`None`, `0`, `false`, `[]`, `{}`) fails the same emptiness test at scanner/views.py:34 and gets the same "URL not provided" error. A truthy non-string reaches `startswith` at scanner/views.py:42 and raises an error that the `JSONDecodeError` handler does not catch, so the framework reports a server error.
- Weight: its own contract only bounds each weight to 1..40; the exact weights 30, 15, 25 and 40 are stated by `RiskProperties.ScoreFormula` and `Risk.Evaluate`, not by `Weight` itself.
- Finding: its own contract only says no finding equals the secure-connection message; the exact texts are stated by `Risk.Evaluate` and the scenario lemmas.
- Lone surrogates: a Python `str` can hold them (for example after `json.loads` of `"\ud800"`), and `len` counts each one. A Dafny `string` holds only Unicode scalar values, so such URLs are not represented.
- Unicode digits: Python's `\d` also matches non-ASCII decimal digits. `Pattern.IsDigit` accepts only `0`-`9`.
- `MatchesPrefix` models only the regular-expression constructs the IP rule uses: digit repetitions and literal characters, anchored at the start. It is not a general `re` engine.
- scanner/urls.py is not part of this model: it is a routing table with no logic.
