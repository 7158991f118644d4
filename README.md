# Facebook Ads Library scraper — a Dafny model of its bookkeeping

The scraper searches the Facebook Ads Library for each keyword, reads the ad cards
it finds, keeps one record per advertiser page (keyed by page URL and page name),
and then visits each advertiser's page and About sub-pages to pick up a follower
count and contact details. Around the browser sits a layer of plain logic. This
project models that layer and proves what it promises:

- `Utils` (`src/utils.js`):
  - the whole-month difference between two dates;
  - page-URL normalisation, modelled at the string level;
  - the advertiser key;
  - the rule that picks a card's page link out of its `href` list;
  - the page-name cleanup.
- `Followers` (`src/facebookPageParser.js`): `parseFollowerNumber`, together with
  the parts of `parseInt`, `parseFloat` and `Math.round` it relies on, in exact
  arithmetic.
- `PageParser` (`src/facebookPageParser.js`):
  - the four candidate About URLs;
  - the first-count-wins loop of `tryExtractFollowers`;
  - the `enrichPageDetails` walk. It fills the follower count once, merges each
    contact field first-found-wins, and stops right after the first page
    that gave a count and some contact detail.
- `Scraper` (`src/scraper.js`):
  - the scroll loop and its bounds;
  - the card filter;
  - the advertiser map, updated in place (class `ScrapeRun`): insert on a first
    sighting; on a repeat, keep the larger month count and add the keyword once;
  - the aggregation restated as a replay of sightings: the keys in first-sighting
    order, and per key the first name and URL, the largest month count and the
    keywords found under, each once;
  - the enrichment merge with `??`;
  - the whole `scrapeAdvertisers` run, with the browser replaced by input values.
- `JsString` and `Wrappers`: the JavaScript string built-ins used (`trim`,
  `toLowerCase`, `replace(/,/g, '')`, `startsWith`, ...), and `Option` with `??`.

The browser is replaced by plain inputs:

| browser activity | model input |
|---|---|
| the heights the page reports while scrolling | `heights` |
| the parsed cards of each keyword | `cardsFor` |
| the date "now" | `now` |
| what one visit to a candidate page yields | `Outcome` |
| what enriching a page URL yields | `enrich` |

JavaScript's `null` is `None`. Truthiness of a string or `null` is
`PageParser.Truthy`: `null` and `""` are both falsy.

`normalizePageUrl` is not idempotent. It strips a single trailing `/`, so a URL
whose path ends in `//` changes again when it is normalised a second time.
`Utils.NormalizeIdempotentUnlessSlash` states exactly when a second normalisation
changes nothing.

## Model

| member | source | states |
|---|---|---|
| Utils.MonthsBetweenCountsWholeMonths | src/utils.js:1-8 | a positive k is at most `computeMonthsBetween(start, end)` exactly when moving `start` forward k calendar months (same day of month) lands on or before `end`, so the result counts whole months elapsed |
| Utils.MonthsBetweenNonNegative | src/utils.js:7 | the result is never negative, and is 0 whenever `end` lies in an earlier month than `start` |
| Utils.MonthsBetweenMonotone | src/utils.js:4-7 | a later end date never gives fewer months |
| Utils.MonthsBetweenExamples | src/utils.js:6 | the same date gives 0; 2024-01-15 to 2024-03-10 gives 1; 2024-01-10 to 2024-03-10 gives 2; 2023-11-30 to 2024-02-29 gives 2 |
| Utils.NormalizeStripsQueryAndFragment | src/utils.js:16-22 | a URL the parser accepts normalises to `scheme:` plus what follows, cut at the first `?` or `#`, less at most one trailing `/`; no query and no fragment remain |
| Utils.QueryAndSlashAgree | src/utils.js:18-22 | a URL with a query or fragment after its path, and the same path with one trailing `/`, normalise to the same string |
| Utils.NormalizeRootRelative | src/utils.js:16 | a root-relative path `/p` is resolved against `https://www.facebook.com` |
| Utils.NormalizeFailsSoft | src/utils.js:23-25 | input the URL parser refuses comes back unchanged instead of throwing |
| Utils.MissingHostRefused | src/utils.js:14-26 | a special-scheme URL with an empty host (`https://`, `http:?q`) is refused and so returned as given |
| Utils.SameSchemeIsRelative | src/utils.js:16 | `https:` not followed by `//` shares the base's scheme and is resolved relative to the base; a rest without a scheme of its own resolves as if `https:` were absent |
| Utils.OtherSpecialTakesHost | src/utils.js:16 | another special scheme (`http:`, `ftp:`, ...) reads its host after any number of slashes, and is refused when none follows |
| Utils.NormalizeSameSchemePath | src/utils.js:16-22 | `https:` followed by a plain path normalises to that path under `https://www.facebook.com/` |
| Utils.SameSchemeExamples | src/utils.js:16-22 | `https:page` gives `https://www.facebook.com/page` and `https:` gives `https://www.facebook.com` |
| Utils.NormalizeNoHost | src/utils.js:14-26 | `https://` is refused by the parser and returned unchanged |
| Utils.NormalizeSerialized | src/utils.js:16-22 | normalising the text of a parsed URL gives the URL's normal form (the parser reads its own output back) |
| Utils.NormalFormReparsed | src/utils.js:16-22 | a normal form parses again; normalising it once more only drops one more trailing `/` |
| Utils.NormalizeIdempotentUnlessSlash | src/utils.js:14-26 | normalising twice equals normalising once exactly when the input was refused or the normal form does not end in `/` |
| Utils.ResolveSerialized | src/utils.js:16 | the parser model reads back every URL it accepts: `Resolve(Serialize(u)) == Some(u)` |
| Utils.UniqueKeyIgnoresCaseAndPadding | src/utils.js:11 | names that differ only in letter case or surrounding whitespace give the same key |
| Utils.UniqueKeySameUrl | src/utils.js:11 | for one page URL, two names give the same key exactly when their trimmed, lower-cased forms agree |
| Utils.SelectPageLink | src/utils.js:31-41 | the result is null exactly when no href is a page link (contains `facebook.com/` or is `/slug` or `/slug/`, and not `ads/library`); otherwise it is the first such href, absolutised, and never an Ads Library link |
| Utils.AbsolutizeKeepsOutAdsLibrary | src/utils.js:37-38 | prefixing `https://www.facebook.com` to a relative href cannot create an `ads/library` link |
| Utils.CardPageNameBlank | src/utils.js:44-48 | there is no page name exactly when there is no title element or its text is all whitespace |
| Utils.CardPageNameOfPadded | src/utils.js:47 | a name with non-blank first and last characters, padded with whitespace on either side, is read back as exactly that name |
| JsString.TrimEmpty | src/utils.js:47 | `trim` leaves nothing exactly when the text is all whitespace |
| JsString.TrimLowerCommute | src/utils.js:11 | trimming and lower-casing commute |
| JsString.TrimIdempotent | src/utils.js:11 | trimming twice is trimming once |
| JsString.TrimPadding | src/utils.js:11 | surrounding whitespace makes no difference to `trim` |
| JsString.LowerRemoveCommasCommute | src/facebookPageParser.js:33 | lower-casing and comma removal commute |
| JsString.RemoveCommasKeeps | src/facebookPageParser.js:33 | comma removal keeps exactly the characters other than `,` |
| Followers.ParseIgnoresComma | src/facebookPageParser.js:33 | a comma anywhere in the text makes no difference to the parsed count |
| Followers.ParseIgnoresCommas | src/facebookPageParser.js:33 | removing all commas first changes nothing |
| Followers.ParseIgnoresCase | src/facebookPageParser.js:33 | lower-casing the text first changes nothing |
| Followers.ParseDecimal | src/facebookPageParser.js:36-37 | the decimal digits of n parse to n |
| Followers.ParseTruncatesFraction | src/facebookPageParser.js:36 | without a suffix only the integer part is kept: the decimal digits of n, a point and any digits `f` (leading zeros included) parse to n |
| Followers.ParseThousands | src/facebookPageParser.js:34 | `n` followed by `k` parses to 1000·n |
| Followers.ParseMillions | src/facebookPageParser.js:35 | `n` followed by `m` parses to 1000000·n |
| Followers.ParseFractionThousands | src/facebookPageParser.js:34 | one or more digits `w`, a point, digits `f` and `k` parse to `Math.round` of 1000 times the decimal value of `w.f` |
| Followers.ParseFractionMillions | src/facebookPageParser.js:35 | one or more digits `w`, a point, digits `f` and `m` parse to `Math.round` of 1000000 times the decimal value of `w.f` |
| Followers.GroupedDecimal | src/facebookPageParser.js:33-36 | digits with one grouping comma parse to the number they spell |
| Followers.NumberNeedsDigit | src/facebookPageParser.js:32-38 | a text that parses to a number contains a digit |
| Followers.ExampleFraction | src/facebookPageParser.js:36 | `"1.5"` gives 1 |
| Followers.ExampleThousands | src/facebookPageParser.js:34 | `"1.2k"` gives 1200, an instance of `ParseFractionThousands` |
| Followers.ExampleMillions | src/facebookPageParser.js:35 | `"2m"` gives 2000000 |
| Followers.ExampleGrouped | src/facebookPageParser.js:33-36 | `"3,456"` gives 3456 |
| Followers.ExampleSuffixOnly | src/facebookPageParser.js:34 | a lone `"k"` gives NaN, not null |
| Followers.ExampleNoDigits | src/facebookPageParser.js:36-37 | `"n/a"` gives null |
| Followers.NoLeadingDigitsNull | src/facebookPageParser.js:33-37 | a text whose lower-cased, comma-free form ends in neither `k` nor `m` and starts with neither whitespace, a sign nor a digit gives null |
| Followers.NothingToParse | src/facebookPageParser.js:34-37 | a text starting with a non-blank, non-digit, non-sign, non-point character has no integer and no float prefix |
| Followers.Round | src/facebookPageParser.js:34-35 | `Math.round` gives the integer within half a unit, halves rounded up |
| PageParser.CandidateAboutUrls | src/facebookPageParser.js:3-11 | exactly four URLs, the first the normalised page URL, each starting with it |
| PageParser.CandidatesDistinct | src/facebookPageParser.js:5-10 | the four candidate URLs are pairwise distinct |
| PageParser.FollowersFromMatches | src/facebookPageParser.js:19-29 | a count found is the parse of one of the captured texts |
| PageParser.FollowersFirstParsed | src/facebookPageParser.js:19-29 | the first capture that does not parse to NaN decides: a number is returned, a null ends the search with no count |
| PageParser.FollowersNoneParsed | src/facebookPageParser.js:19-29 | when every capture is absent or NaN there is no count |
| PageParser.Step | src/facebookPageParser.js:68-90 | a failed visit changes nothing; a count once found is kept, and an absent count is taken from the page; a contact with all three fields set is not touched; otherwise each falsy field takes the page's value |
| PageParser.EnrichPageDetails | src/facebookPageParser.js:62-94 | the walk visits the first `Visits(outcomes)` candidate URLs in order and returns the fold of their outcomes |
| PageParser.VisitCandidates | src/facebookPageParser.js:67-91 | the loop, with its `break`, visits exactly the prefix up to the first stop and yields the fold over it |
| PageParser.VisitsIsFirstStop | src/facebookPageParser.js:67-91 | at most all candidates are visited (at least one when there is one); the walk ends early only right after a page that left a count and some contact field, and no earlier page did; if any page would stop it, it stops |
| PageParser.NotDoneAfterFailure | src/facebookPageParser.js:88-90 | a failed visit never triggers the stop |
| PageParser.FoldFollowers | src/facebookPageParser.js:78 | the count is the first count any loaded candidate reported |
| PageParser.FollowersNeverOverwritten | src/facebookPageParser.js:78 | once the count is set after some candidate, later candidates never change it |
| PageParser.FoldContact | src/facebookPageParser.js:79-85 | each contact field is the first truthy value loaded pages reported for it, independently of the other fields |
| PageParser.FirstTruthy | src/facebookPageParser.js:82-84 | the chosen value is one of those reported, and is truthy exactly when some reported value is |
| PageParser.EnrichFirstFound | src/facebookPageParser.js:62-94 | the walk's count and each contact field are first-found over the candidates actually visited |
| PageParser.ExampleFirstPhoneKept | src/facebookPageParser.js:81-85 | a phone from the first page and email and phone from the second give the second's email and the first's phone |
| Scraper.CeilTenth | src/scraper.js:125 | `Math.ceil(x / 10)`: the least r with 10·r at least x |
| Scraper.MaxScrollsFor | src/scraper.js:125 | the scroll bound is at least 10, covers `limitPerKeyword` at ten cards a pass, and is the least such bound above 10 |
| Scraper.AutoScroll | src/scraper.js:21-32 | at most `maxScrolls` passes; no pass before the last read the previous height; fewer passes only when the last one read the previous height (0 before the first) |
| Scraper.SkippedCardNoChange | src/scraper.js:149-176 | an incomplete, too young or failed card leaves the map unchanged |
| Scraper.AddKeyword | src/scraper.js:170 | the keyword list only grows at its end, gains the keyword and nothing else, and stays free of repeats |
| Scraper.RecordEffect | src/scraper.js:156-171 | a first sighting appends the key and stores a record with no count, no contact and the one keyword; a repeat keeps order, name, URL, count and contact, takes the larger month count and adds the keyword once; other keys' records are unchanged |
| Scraper.RecordValid | src/scraper.js:157-171 | keys stay listed once each and keyword lists stay non-empty and repeat-free |
| Scraper.ExampleKeywordsDeduplicated | src/scraper.js:170 | sightings under `a`, `a`, `b` give the keyword list `["a","b"]` and one key |
| Scraper.Inspected | src/scraper.js:147 | the cards inspected are a prefix of the cards found, no more than `limitPerKeyword` of them |
| Scraper.KeywordScanExtends | src/scraper.js:147-177 | scanning cards only appends keys, never drops a record, never lowers a month count and never forgets a keyword |
| Scraper.AggregateReplay | src/scraper.js:92-178 | the keyword and card loops store, in order, the sightings of the kept cards of each keyword's inspected cards, starting from the empty map |
| Scraper.ReplayFromEmpty | src/scraper.js:157-171 | storing sightings in the empty map lists their distinct keys in first-sighting order and files under each key exactly what its sightings add up to (`Summarises`) |
| Scraper.AggregateByEvents | src/scraper.js:92-178 | the aggregated map, stated without the loops: the distinct keys of the kept cards in first-sighting order; under each, the name and URL of its first sighting, the largest month count of all its sightings, no details, and each keyword it was found under once, in search order |
| Scraper.EventsKept | src/scraper.js:147-156 | every kept card came from a searched keyword and has run at least `minMonths` |
| Scraper.ExampleTwoKeywords | src/scraper.js:166-170 | one advertiser kept at 4 months under `a` and at 7 months under `b` is one record of 7 months listing `["a","b"]`; in the other order the 7 months are kept too |
| Scraper.AggregateCollected | src/scraper.js:92-178 | after all keywords, every record is stored under its own key, has run at least `minMonths`, has no count or contact yet and lists only searched keywords |
| Scraper.ApplyDetailsEffect | src/scraper.js:187-198 | a non-null detail replaces the stored value and a null one keeps it; a failed enrichment leaves the record unchanged; name, URL, months and keywords never change |
| Scraper.ApplyDetailsIdempotent | src/scraper.js:188-193 | merging the same details twice is merging them once |
| Scraper.ApplyNoDetails | src/scraper.js:188-193 | details with nothing found leave the record unchanged |
| Scraper.EnrichKeepsValid | src/scraper.js:183-199 | enrichment keeps the map's key and keyword invariants |
| Scraper.ScrapeResult | src/scraper.js:147-204 | the run returns one advertiser per distinct key, each stored under its own key, at least `minMonths` old, with a non-empty, repeat-free list of searched keywords |
| Scraper.ScrapeRun.InspectCard | src/scraper.js:148-176 | one card updates the map in place as the card step prescribes, keeping the invariants |
| Scraper.ScrapeRun.Sight | src/scraper.js:157-171 | a kept sighting is inserted or merged in place as `Record` prescribes |
| Scraper.ScrapeRun.ScanKeyword | src/scraper.js:147-177 | the card loop applies the card step to each inspected card in order |
| Scraper.ScrapeRun.MergeDetails | src/scraper.js:187-193 | one advertiser's record is merged in place and the rest of the map is unchanged |
| Scraper.ScrapeRun.EnrichAll | src/scraper.js:183-199 | the enrichment loop merges every record with what its page gave, in place, keeping the invariants |
| Scraper.ScrapeAdvertisers | src/scraper.js:79-205 | the returned advertisers are the listing of the aggregated map after enrichment |

## Left out

- Playwright is left out. That covers launching the browser, navigation, locators,
  clicks and waits, `dismissOverlays`, the cookie-accept loops, `locateAdCards` and
  its ancestor walk. What the browser shows is an input of the model.
- The DOM queries of `parseAdvertiserFromAdCard` are left out:
  - the `querySelectorAll('a')` call; the model takes the card's `href` list instead;
  - the title selector; the model takes its `textContent` instead;
  - the text walker that finds the start-date line.
- Date parsing and the clock are left out: `new Date(m[1]).toISOString()` and
  `new Date()` depend on the JS date library and the local time zone. A date is a
  `(year, month, day)` triple, and "now" is one parameter for the whole run (the
  source reads the clock once per card).
- The regular expressions of `tryExtractContact` and `tryExtractFollowers` are left
  out. What they capture is an input: one `Outcome` per candidate page, and the
  captured texts in `FollowersFromMatches`.
- The follower capture `([\d,.]+)` of `tryExtractFollowers`
  (`src/facebookPageParser.js:22`) cannot end in `k` or `m`, so the suffix
  branches of `parseFollowerNumber` are not reached from it: `"1.2K followers"`
  does not match at all. The model keeps the captures as inputs and proves
  `parseFollowerNumber` on every text, suffixes included.
- Utils.NormalizePageUrl: WHATWG URL parsing against the base
  `https://www.facebook.com` is approximated at the string level:
  - the scheme is lower-cased; a non-special scheme keeps its text as given;
  - `https:`, the base's own scheme, is read relative to the base unless `//`
    follows, so `https:page` becomes `https://www.facebook.com/page`;
  - another special scheme reads its host after any number of slashes;
  - with no scheme, `//host` takes `https:`, `/path` the Facebook origin, and
    anything else is resolved under the origin's root;
  - the parser refuses only a special URL with no host;
  - the input is parsed as given: the parser's removal of leading and trailing C0
    controls and spaces, and of every tab, line feed and carriage return, is not
    modelled. So `https://www.facebook.com/acme` followed by a newline keeps the
    newline in its normal form, and its advertiser key differs from that of the
    same URL without it;
  - `file` is not treated as a special scheme: `file:foo` stays `file:foo`, where
    the parser gives `file:///foo`;
  - host lower-casing, backslashes, percent-encoding, dot segments, ports and IDNA
    are not modelled.
- Utils.MissingHostRefused: `https:` not followed by `//` is not refused even when
  no host follows, because the parser resolves it against the base (see
  `Utils.SameSchemeIsRelative`); the lemma's requires leaves that case out.
- JsString.ToLower: only ASCII letters are lower-cased. Case mapping outside ASCII
  is not modelled.
- Followers.ParseInt: the integer `parseInt` reads is exact. The JavaScript number is
  an IEEE double, so a run of more than about 16 digits is rounded (past 2^53), and a
  run of some 309 digits or more gives `Infinity`, which passes the `Number.isNaN` test
  as a count. Neither rounding nor `Infinity` is modelled.
- Followers.ParseFloat: exact real arithmetic replaces IEEE doubles, so
  `parseFloat(str) * 1000` is computed without rounding error before `Math.round`.
  Infinity and exponents that overflow are not modelled.
- PageParser.Outcome: an exception thrown anywhere in a visit is folded into
  `NavFailed`. In the source, a count extracted before `tryExtractContact` throws in
  the same visit is kept. The model drops it with the rest of that visit.
- Scraper.EnrichOutcome: an exception in `enrichPageDetails` is `EnrichFailed` and
  leaves the record unchanged, as the `catch` at `src/scraper.js:195-198` does.
- Scraper.ScrapeRun: records are stored as values in a map. The JavaScript objects
  shared between `advertiserMap` and the `advertisers` array are not modelled as
  aliases. The enrichment loop updates the map, and the listing is taken from it;
  the order and values are the same as in the source.
- Scraper.AutoScroll: the heights are a function of the pass number. The number of
  passes does not feed the cards a keyword shows, which `cardsFor` gives directly.
  `FallbackMaxScrolls` (8) is the fallback pass's bound and is otherwise unused.
- Scraper.ScrapeAdvertisers: `cardsFor` and `enrich` are functions of the keyword and
  of the page URL. A repeated keyword therefore shows the same cards, and two
  records with the same page URL get the same enrichment outcome, whereas the live
  site may answer differently on each visit.
- `searchUrlFor` is left out: it only encodes a query string.
- The debug snapshot (`src/scraper.js:134-144`), logging, the CLI (`src/index.js`),
  the HTTP API (`src/server.js`) and CSV/JSON output (`src/output.js`) are left out:
  they are I/O.
