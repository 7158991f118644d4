/** The bookkeeping of `src/scraper.js`: the scroll loop against a sequence of page
    heights, the aggregation of ad cards into one record per advertiser key, and
    the merge of each advertiser's page details. The browser is replaced by input
    values: the heights the page reports, what each ad card parsed to, and what
    enriching each page gave. */
module Scraper {
  import opened Wrappers
  import Utils
  import PageParser

  // ---------------------------------------------------------------------------
  // Scrolling
  // ---------------------------------------------------------------------------

  /** `Math.ceil(x / 10)` for an integer `x`. */
  function CeilTenth(x: int): (r: int)
    ensures r * 10 >= x && (r - 1) * 10 < x
  {
    -((-x) / 10)
  }

  /** Line 125: `Math.max(10, Math.ceil(limitPerKeyword / 10))`, the least bound of
      at least 10 passes that allows ten cards a pass for the whole limit. */
  function MaxScrollsFor(limitPerKeyword: int): (n: int)
    ensures n >= 10 && n * 10 >= limitPerKeyword
    ensures n == 10 || (n - 1) * 10 < limitPerKeyword
  {
    var c := CeilTenth(limitPerKeyword);
    if c > 10 then c else 10
  }

  /** Line 131: the bound of the second scroll when no card was found. */
  const FallbackMaxScrolls: int := 8

  /** The height the `i`-th pass compares against: 0 before the first pass. */
  function PreviousHeight(heights: nat -> int, i: nat): int {
    if i == 0 then 0 else heights(i - 1)
  }

  /** The `i`-th pass reads the same height as the one before it. */
  predicate Settled(heights: nat -> int, i: nat) {
    heights(i) == PreviousHeight(heights, i)
  }

  /** `autoScroll(page, { maxScrolls })`, where the `i`-th pass reads the document
      height `heights(i)`. Returns the number of passes made: never more than
      `maxScrolls`, and fewer only when the last pass read the height the pass
      before it read (0 before the first). */
  method AutoScroll(maxScrolls: int, heights: nat -> int) returns (passes: nat)
    ensures passes <= if maxScrolls < 0 then 0 else maxScrolls
    ensures forall i :: 0 <= i && i + 1 < passes ==> !Settled(heights, i)
    ensures passes < maxScrolls ==> passes >= 1 && Settled(heights, passes - 1)
  {
    var previousHeight := 0;
    var i := 0;
    while i < maxScrolls
      invariant 0 <= i && (i <= maxScrolls || i == 0)
      invariant previousHeight == PreviousHeight(heights, i)
      invariant forall j :: 0 <= j < i ==> !Settled(heights, j)
    {
      var currentHeight := heights(i);
      if currentHeight == previousHeight {
        return i + 1;
      }
      previousHeight := currentHeight;
      i := i + 1;
    }
    return i;
  }

  // ---------------------------------------------------------------------------
  // Ad cards
  // ---------------------------------------------------------------------------

  /** What `parseAdvertiserFromAdCard` gives for a card; `startedAt` is the start
      date it read, as a calendar date. */
  datatype Ad = Ad(pageUrl: Option<string>, pageName: Option<string>, startedAt: Option<Utils.Date>)

  /** One card of the result list: parsed, or it raised (the `catch` at lines
      173-176, which also receives an unparseable start date). */
  datatype CardOutcome = CardFailed | Parsed(ad: Ad)

  /** A card that passes the filters of lines 151-154, with its key and age. */
  datatype Sighting = Sighting(key: string, name: string, url: string, months: nat)

  /** Lines 150-156: a card counts when it has a page URL, a page name and a start
      date, and has run at least `minMonths` whole months by `now`. */
  function Admit(card: CardOutcome, now: Utils.Date, minMonths: int): (s: Option<Sighting>)
    ensures s.Some? <==>
              card.Parsed? && PageParser.Truthy(card.ad.pageUrl) && PageParser.Truthy(card.ad.pageName)
              && card.ad.startedAt.Some? && Utils.MonthsBetween(card.ad.startedAt.value, now) >= minMonths
    ensures s.Some? ==> s.value.months >= minMonths
                        && s.value.key == Utils.UniqueKey(s.value.url, s.value.name)
                        && s.value.url == card.ad.pageUrl.value && s.value.name == card.ad.pageName.value
  {
    match card
    case CardFailed => None
    case Parsed(ad) =>
      if !PageParser.Truthy(ad.pageUrl) || !PageParser.Truthy(ad.pageName) || ad.startedAt.None? then None
      else
        var months := Utils.MonthsBetween(ad.startedAt.value, now);
        if months < minMonths then None
        else Some(Sighting(Utils.UniqueKey(ad.pageUrl.value, ad.pageName.value), ad.pageName.value, ad.pageUrl.value, months))
  }

  // ---------------------------------------------------------------------------
  // Advertiser records
  // ---------------------------------------------------------------------------

  /** The record stored per advertiser key (lines 158-165). */
  datatype Advertiser = Advertiser(
    companyName: string,
    facebookPageUrl: string,
    monthsRunning: nat,
    followers: Option<int>,
    contact: PageParser.Contact,
    keywordsMatched: seq<string>)

  /** `advertiserMap`: its keys in insertion order, and the record of each key. */
  datatype Table = Table(order: seq<string>, records: map<string, Advertiser>)

  const EmptyTable := Table([], map[])

  predicate NoDuplicates(s: seq<string>) {
    forall i, j :: 0 <= i < j < |s| ==> s[i] != s[j]
  }

  lemma NotEarlier(s: seq<string>, i: nat)
    requires NoDuplicates(s) && i < |s|
    ensures s[i] !in s[..i]
  {
    assert forall j | 0 <= j < i :: s[..i][j] != s[i];
  }

  /** The keys are listed once each, and every record has a non-empty keyword list
      without repeats. */
  ghost predicate ValidTable(t: Table) {
    && NoDuplicates(t.order)
    && (forall k :: k in t.records <==> k in t.order)
    && (forall k :: k in t.records ==> t.records[k].keywordsMatched != [] && NoDuplicates(t.records[k].keywordsMatched))
  }

  /** The record of a first sighting. */
  function NewAdvertiser(s: Sighting, keyword: string): Advertiser {
    Advertiser(s.name, s.url, s.months, None, PageParser.NoContact, [keyword])
  }

  /** Line 170: `if (!ks.includes(keyword)) ks.push(keyword)`. */
  function AddKeyword(ks: seq<string>, keyword: string): (r: seq<string>)
    ensures ks <= r && keyword in r
    ensures forall k :: k in r ==> k in ks || k == keyword
    ensures NoDuplicates(ks) ==> NoDuplicates(r)
  {
    if keyword in ks then ks else ks + [keyword]
  }

  /** The record a sighting leaves under its key: a new one when nothing was stored
      (lines 158-165), otherwise the stored one with the longer running time and the
      keyword added (lines 167-170). */
  function Merged(stored: Option<Advertiser>, s: Sighting, keyword: string): Advertiser {
    match stored
    case None => NewAdvertiser(s, keyword)
    case Some(e) =>
      var months := if e.monthsRunning < s.months then s.months else e.monthsRunning;
      e.(monthsRunning := months, keywordsMatched := AddKeyword(e.keywordsMatched, keyword))
  }

  /** Lines 157-171: insert on a first sighting, otherwise keep the longer running
      time and add the keyword. */
  function Record(t: Table, s: Sighting, keyword: string): Table {
    if s.key !in t.records then
      Table(t.order + [s.key], t.records[s.key := Merged(None, s, keyword)])
    else
      Table(t.order, t.records[s.key := Merged(Some(t.records[s.key]), s, keyword)])
  }

  /** Every listed key has a record. */
  predicate Listed(t: Table) {
    forall k :: k in t.order ==> k in t.records
  }

  /** One card, lines 149-176. */
  function CardStep(t: Table, keyword: string, card: CardOutcome, now: Utils.Date, minMonths: int): (r: Table)
    ensures Listed(t) ==> Listed(r)
  {
    match Admit(card, now, minMonths)
    case None => t
    case Some(s) =>
      RecordListed(t, s, keyword);
      Record(t, s, keyword)
  }

  lemma RecordListed(t: Table, s: Sighting, keyword: string)
    ensures Listed(t) ==> Listed(Record(t, s, keyword))
  {}

  /** The cards line 147 inspects: at most `limitPerKeyword` of them from the front. */
  function Inspected(cards: seq<CardOutcome>, limitPerKeyword: int): (r: seq<CardOutcome>)
    ensures r <= cards
    ensures |r| == |cards| || |r| == limitPerKeyword || (limitPerKeyword < 0 && r == [])
    ensures |r| <= limitPerKeyword || r == []
  {
    if limitPerKeyword <= 0 then [] else if limitPerKeyword < |cards| then cards[..limitPerKeyword] else cards
  }

  /** The cards of one keyword, in order. */
  function KeywordScan(t: Table, keyword: string, cards: seq<CardOutcome>, now: Utils.Date, minMonths: int): (r: Table)
    ensures Listed(t) ==> Listed(r)
  {
    if cards == [] then t
    else CardStep(KeywordScan(t, keyword, cards[..|cards| - 1], now, minMonths), keyword, cards[|cards| - 1], now, minMonths)
  }

  /** Lines 92-178: every keyword in turn, each with the cards its search shows. */
  function Aggregate(keywords: seq<string>, cardsFor: string -> seq<CardOutcome>, limitPerKeyword: int,
                     now: Utils.Date, minMonths: int): (r: Table)
    ensures Listed(r)
  {
    if keywords == [] then EmptyTable
    else
      var last := keywords[|keywords| - 1];
      KeywordScan(Aggregate(keywords[..|keywords| - 1], cardsFor, limitPerKeyword, now, minMonths),
                  last, Inspected(cardsFor(last), limitPerKeyword), now, minMonths)
  }

  /** Line 181: `Array.from(advertiserMap.values())`, in insertion order. */
  function Listing(t: Table): (r: seq<Advertiser>)
    requires Listed(t)
    ensures |r| == |t.order|
    ensures forall i :: 0 <= i < |r| ==> r[i] == t.records[t.order[i]]
  {
    seq(|t.order|, i requires 0 <= i < |t.order| => t.records[t.order[i]])
  }

  // ---------------------------------------------------------------------------
  // Enrichment merge
  // ---------------------------------------------------------------------------

  /** What enriching one advertiser's page gave: the details, or it raised (the
      `catch` at lines 195-198). */
  datatype EnrichOutcome = EnrichFailed | Enriched(details: PageParser.Details)

  /** Lines 188-193: a non-null detail replaces the stored value, a null one keeps it. */
  function ApplyDetails(a: Advertiser, o: EnrichOutcome): Advertiser {
    match o
    case EnrichFailed => a
    case Enriched(d) =>
      a.(followers := OrElse(d.followers, a.followers),
         contact := PageParser.Contact(OrElse(d.contact.email, a.contact.email),
                                       OrElse(d.contact.phone, a.contact.phone),
                                       OrElse(d.contact.address, a.contact.address)))
  }

  /** Lines 183-199: every advertiser merged with what enriching its page gave. */
  function EnrichTable(t: Table, enrich: string -> EnrichOutcome): (r: Table)
    ensures Listed(t) ==> Listed(r)
  {
    Table(t.order, map k | k in t.records :: ApplyDetails(t.records[k], enrich(t.records[k].facebookPageUrl)))
  }

  /** The records whose keys are in `done` are merged, the others untouched. */
  ghost predicate EnrichedUpTo(orig: map<string, Advertiser>, cur: map<string, Advertiser>, done: seq<string>,
                               enrich: string -> EnrichOutcome) {
    && cur.Keys == orig.Keys
    && forall k :: k in cur ==>
         cur[k] == if k in done then ApplyDetails(orig[k], enrich(orig[k].facebookPageUrl)) else orig[k]
  }

  lemma EnrichedStep(orig: map<string, Advertiser>, cur: map<string, Advertiser>, done: seq<string>, key: string,
                     enrich: string -> EnrichOutcome)
    requires EnrichedUpTo(orig, cur, done, enrich)
    requires key in cur && key !in done
    ensures EnrichedUpTo(orig, cur[key := ApplyDetails(cur[key], enrich(cur[key].facebookPageUrl))], done + [key], enrich)
  {}

  lemma EnrichedAll(t: Table, cur: map<string, Advertiser>, enrich: string -> EnrichOutcome)
    requires ValidTable(t)
    requires EnrichedUpTo(t.records, cur, t.order, enrich)
    ensures cur == EnrichTable(t, enrich).records
    ensures ValidTable(Table(t.order, cur))
  {
    EnrichKeepsValid(t, enrich);
  }

  // ---------------------------------------------------------------------------
  // The run's state
  // ---------------------------------------------------------------------------

  /** The mutable state of one `scrapeAdvertisers` call: `advertiserMap`. */
  class ScrapeRun {
    var order: seq<string>
    var records: map<string, Advertiser>

    ghost function State(): Table
      reads this
    {
      Table(order, records)
    }

    ghost predicate Valid()
      reads this
    {
      ValidTable(State())
    }

    constructor ()
      ensures Valid() && State() == EmptyTable
    {
      order := [];
      records := map[];
    }

    /** The body of the card loop, lines 149-176, for one card. */
    method InspectCard(keyword: string, card: CardOutcome, now: Utils.Date, minMonths: int)
      requires Valid()
      modifies this
      ensures Valid()
      ensures State() == CardStep(old(State()), keyword, card, now, minMonths)
    {
      match card {
        case CardFailed =>
        case Parsed(ad) =>
          if !PageParser.Truthy(ad.pageUrl) || !PageParser.Truthy(ad.pageName) || ad.startedAt.None? {
            return;
          }
          var months := Utils.MonthsBetween(ad.startedAt.value, now);
          if months < minMonths {
            return;
          }
          var key := Utils.UniqueKey(ad.pageUrl.value, ad.pageName.value);
          Sight(Sighting(key, ad.pageName.value, ad.pageUrl.value, months), keyword);
      }
    }

    /** Lines 157-171: insert the record of a first sighting, or update the stored
        one in place. */
    method Sight(s: Sighting, keyword: string)
      requires Valid()
      modifies this
      ensures Valid()
      ensures State() == Record(old(State()), s, keyword)
    {
      RecordValid(State(), s, keyword);
      if s.key !in records {
        records := records[s.key := Advertiser(s.name, s.url, s.months, None, PageParser.NoContact, [keyword])];
        order := order + [s.key];
      } else {
        var existing := records[s.key];
        var monthsRunning := if existing.monthsRunning < s.months then s.months else existing.monthsRunning;
        var keywordsMatched := existing.keywordsMatched;
        if keyword !in keywordsMatched {
          keywordsMatched := keywordsMatched + [keyword];
        }
        records := records[s.key := existing.(monthsRunning := monthsRunning, keywordsMatched := keywordsMatched)];
      }
    }

    /** The card loop of line 147 for one keyword. */
    method ScanKeyword(keyword: string, cards: seq<CardOutcome>, limitPerKeyword: int, now: Utils.Date, minMonths: int)
      requires Valid()
      modifies this
      ensures Valid()
      ensures State() == KeywordScan(old(State()), keyword, Inspected(cards, limitPerKeyword), now, minMonths)
    {
      var i := 0;
      while i < |cards| && i < limitPerKeyword
        invariant 0 <= i <= |Inspected(cards, limitPerKeyword)|
        invariant Valid()
        invariant State() == KeywordScan(old(State()), keyword, cards[..i], now, minMonths)
      {
        InspectCard(keyword, cards[i], now, minMonths);
        assert cards[..i + 1][..i] == cards[..i];
        i := i + 1;
      }
      assert cards[..i] == Inspected(cards, limitPerKeyword);
    }

    /** The enrichment loop, lines 183-199. */
    method EnrichAll(enrich: string -> EnrichOutcome)
      requires Valid()
      modifies this
      ensures Valid()
      ensures State() == EnrichTable(old(State()), enrich)
    {
      var i := 0;
      while i < |order|
        invariant 0 <= i <= |order|
        invariant order == old(order)
        invariant EnrichedUpTo(old(records), records, order[..i], enrich)
      {
        var key := order[i];
        NotEarlier(order, i);
        ghost var before := records;
        MergeDetails(key, enrich(records[key].facebookPageUrl));
        EnrichedStep(old(records), before, order[..i], key, enrich);
        assert order[..i + 1] == order[..i] + [key];
        i := i + 1;
      }
      assert order[..i] == order;
      EnrichedAll(old(State()), records, enrich);
    }

    /** Lines 188-193: fields the page gave replace the stored ones, the others stay. */
    method MergeDetails(key: string, outcome: EnrichOutcome)
      requires key in records
      modifies this
      ensures order == old(order)
      ensures records == old(records)[key := ApplyDetails(old(records)[key], outcome)]
    {
      var adv := records[key];
      match outcome {
        case EnrichFailed =>
        case Enriched(details) =>
          var followers := OrElse(details.followers, adv.followers);
          var contact := PageParser.Contact(OrElse(details.contact.email, adv.contact.email),
                                            OrElse(details.contact.phone, adv.contact.phone),
                                            OrElse(details.contact.address, adv.contact.address));
          records := records[key := adv.(followers := followers, contact := contact)];
      }
    }

    /** Line 181: the records in insertion order. */
    function Advertisers(): (r: seq<Advertiser>)
      reads this
      requires Valid()
      ensures r == Listing(State())
    {
      Listing(Table(order, records))
    }
  }

  /** `scrapeAdvertisers(...)` past the browser: the search of each keyword shows
      `cardsFor(keyword)`, enriching a page URL gives `enrich(url)`. Returns the
      advertisers in first-sighting order. */
  method ScrapeAdvertisers(keywords: seq<string>, cardsFor: string -> seq<CardOutcome>, minMonths: int,
                           limitPerKeyword: int, now: Utils.Date, enrich: string -> EnrichOutcome)
    returns (advertisers: seq<Advertiser>)
    ensures advertisers == Listing(EnrichTable(Aggregate(keywords, cardsFor, limitPerKeyword, now, minMonths), enrich))
  {
    var run := new ScrapeRun();
    var j := 0;
    while j < |keywords|
      invariant 0 <= j <= |keywords|
      invariant run.Valid()
      invariant run.State() == Aggregate(keywords[..j], cardsFor, limitPerKeyword, now, minMonths)
    {
      var keyword := keywords[j];
      run.ScanKeyword(keyword, cardsFor(keyword), limitPerKeyword, now, minMonths);
      assert keywords[..j + 1][..j] == keywords[..j];
      j := j + 1;
    }
    assert keywords[..j] == keywords;
    run.EnrichAll(enrich);
    advertisers := run.Advertisers();
  }

  // ---------------------------------------------------------------------------
  // Properties of the aggregation
  // ---------------------------------------------------------------------------

  lemma CardStepValid(t: Table, keyword: string, card: CardOutcome, now: Utils.Date, minMonths: int)
    requires ValidTable(t)
    ensures ValidTable(CardStep(t, keyword, card, now, minMonths))
  {
    match Admit(card, now, minMonths)
    case None =>
    case Some(s) => RecordValid(t, s, keyword);
  }

  /** Recording a sighting keeps every key listed once and every keyword list
      free of repeats. */
  lemma RecordValid(t: Table, s: Sighting, keyword: string)
    requires ValidTable(t)
    ensures ValidTable(Record(t, s, keyword))
  {
    var r := Record(t, s, keyword);
    if s.key !in t.records {
      assert s.key !in t.order;
      forall i, j | 0 <= i < j < |r.order| ensures r.order[i] != r.order[j] {
        if j == |t.order| {
          assert r.order[i] == t.order[i];
        }
      }
    }
  }

  /** A first sighting appends its key and stores a fresh record; a repeat sighting
      keeps the order, the name, the URL, the followers and the contact, takes the
      larger running time and adds the keyword if new; no other key's record
      changes. */
  lemma RecordEffect(t: Table, s: Sighting, keyword: string)
    ensures var r := Record(t, s, keyword);
            && r.records.Keys == t.records.Keys + {s.key}
            && (forall k :: k in t.records && k != s.key ==> r.records[k] == t.records[k])
            && (s.key !in t.records ==> r.order == t.order + [s.key] && r.records[s.key] == NewAdvertiser(s, keyword))
            && (s.key in t.records ==>
                  var e, n := t.records[s.key], r.records[s.key];
                  && r.order == t.order
                  && n.companyName == e.companyName && n.facebookPageUrl == e.facebookPageUrl
                  && n.followers == e.followers && n.contact == e.contact
                  && n.monthsRunning >= e.monthsRunning && n.monthsRunning >= s.months
                  && (n.monthsRunning == e.monthsRunning || n.monthsRunning == s.months)
                  && n.keywordsMatched == AddKeyword(e.keywordsMatched, keyword))
  {}

  /** `t'` extends `t`: keys are only appended, no record is dropped, a record keeps
      its name, URL, followers and contact, its running time never decreases and
      its keyword list only grows at the end. */
  ghost predicate Extends(t: Table, t': Table) {
    && t.order <= t'.order
    && forall k :: k in t.records ==>
         && k in t'.records
         && t'.records[k].companyName == t.records[k].companyName
         && t'.records[k].facebookPageUrl == t.records[k].facebookPageUrl
         && t'.records[k].followers == t.records[k].followers
         && t'.records[k].contact == t.records[k].contact
         && t'.records[k].monthsRunning >= t.records[k].monthsRunning
         && t.records[k].keywordsMatched <= t'.records[k].keywordsMatched
  }

  lemma ExtendsTransitive(t: Table, t': Table, t'': Table)
    requires Extends(t, t') && Extends(t', t'')
    ensures Extends(t, t'')
  {}

  lemma CardStepExtends(t: Table, keyword: string, card: CardOutcome, now: Utils.Date, minMonths: int)
    ensures Extends(t, CardStep(t, keyword, card, now, minMonths))
  {
    var a := Admit(card, now, minMonths);
    if a.Some? {
      RecordExtends(t, a.value, keyword);
    }
  }

  lemma RecordExtends(t: Table, s: Sighting, keyword: string)
    ensures Extends(t, Record(t, s, keyword))
  {
    RecordEffect(t, s, keyword);
  }

  /** However many cards follow, what is stored is only extended: running times
      never decrease (line 169) and keyword lists keep their order (line 170). */
  lemma {:induction false} KeywordScanExtends(t: Table, keyword: string, cards: seq<CardOutcome>, now: Utils.Date, minMonths: int)
    ensures Extends(t, KeywordScan(t, keyword, cards, now, minMonths))
  {
    if cards != [] {
      var p := cards[..|cards| - 1];
      KeywordScanExtends(t, keyword, p, now, minMonths);
      var m := KeywordScan(t, keyword, p, now, minMonths);
      CardStepExtends(m, keyword, cards[|cards| - 1], now, minMonths);
      ExtendsTransitive(t, m, KeywordScan(t, keyword, cards, now, minMonths));
    }
  }

  /** A failed or incomplete card, or one younger than `minMonths`, changes nothing
      (lines 151, 154, 173-176). */
  lemma SkippedCardNoChange(t: Table, keyword: string, card: CardOutcome, now: Utils.Date, minMonths: int)
    requires || card.CardFailed?
             || !PageParser.Truthy(card.ad.pageUrl) || !PageParser.Truthy(card.ad.pageName)
             || card.ad.startedAt.None?
             || Utils.MonthsBetween(card.ad.startedAt.value, now) < minMonths
    ensures CardStep(t, keyword, card, now, minMonths) == t
  {}

  /** What the aggregation alone guarantees of each stored record: it is filed under
      its own key, it has run at least `minMonths`, it has no follower count or
      contact yet, and its keywords come from the searched ones. */
  ghost predicate Collected(t: Table, keywords: seq<string>, minMonths: int) {
    && ValidTable(t)
    && forall k :: k in t.records ==> Unenriched(k, t.records[k], keywords, minMonths)
  }

  /** One record as the aggregation leaves it. */
  ghost predicate Unenriched(k: string, a: Advertiser, keywords: seq<string>, minMonths: int) {
    && k == Utils.UniqueKey(a.facebookPageUrl, a.companyName)
    && a.monthsRunning >= minMonths
    && a.followers == None && a.contact == PageParser.NoContact
    && forall w :: w in a.keywordsMatched ==> w in keywords
  }

  lemma CardStepCollected(t: Table, keywords: seq<string>, keyword: string, card: CardOutcome,
                          now: Utils.Date, minMonths: int)
    requires Collected(t, keywords, minMonths) && keyword in keywords
    ensures Collected(CardStep(t, keyword, card, now, minMonths), keywords, minMonths)
  {
    var a := Admit(card, now, minMonths);
    if a.Some? {
      RecordCollected(t, keywords, a.value, keyword, minMonths);
    }
  }

  lemma RecordCollected(t: Table, keywords: seq<string>, s: Sighting, keyword: string, minMonths: int)
    requires Collected(t, keywords, minMonths) && keyword in keywords
    requires s.key == Utils.UniqueKey(s.url, s.name) && s.months >= minMonths
    ensures Collected(Record(t, s, keyword), keywords, minMonths)
  {
    RecordValid(t, s, keyword);
    RecordEffect(t, s, keyword);
    var r := Record(t, s, keyword);
    forall k | k in r.records
      ensures Unenriched(k, r.records[k], keywords, minMonths)
    {
      if k != s.key {
        assert r.records[k] == t.records[k];
      } else if s.key in t.records {
        UnenrichedRepeat(k, t.records[k], r.records[k], keywords, keyword, minMonths);
      } else {
        UnenrichedNew(s, keywords, keyword, minMonths);
      }
    }
  }

  lemma UnenrichedNew(s: Sighting, keywords: seq<string>, keyword: string, minMonths: int)
    requires keyword in keywords
    requires s.key == Utils.UniqueKey(s.url, s.name) && s.months >= minMonths
    ensures Unenriched(s.key, NewAdvertiser(s, keyword), keywords, minMonths)
  {}

  lemma UnenrichedRepeat(k: string, e: Advertiser, n: Advertiser, keywords: seq<string>, keyword: string, minMonths: int)
    requires Unenriched(k, e, keywords, minMonths) && keyword in keywords
    requires n.companyName == e.companyName && n.facebookPageUrl == e.facebookPageUrl
    requires n.followers == e.followers && n.contact == e.contact && n.monthsRunning >= e.monthsRunning
    requires n.keywordsMatched == AddKeyword(e.keywordsMatched, keyword)
    ensures Unenriched(k, n, keywords, minMonths)
  {}

  lemma {:induction false} KeywordScanCollected(t: Table, keywords: seq<string>, keyword: string,
                                                cards: seq<CardOutcome>, now: Utils.Date, minMonths: int)
    requires Collected(t, keywords, minMonths) && keyword in keywords
    ensures Collected(KeywordScan(t, keyword, cards, now, minMonths), keywords, minMonths)
  {
    if cards != [] {
      var p := cards[..|cards| - 1];
      KeywordScanCollected(t, keywords, keyword, p, now, minMonths);
      CardStepCollected(KeywordScan(t, keyword, p, now, minMonths), keywords, keyword, cards[|cards| - 1], now, minMonths);
    }
  }

  /** Every record the aggregation builds satisfies `Collected`. */
  lemma {:induction false} AggregateCollected(keywords: seq<string>, cardsFor: string -> seq<CardOutcome>,
                                              limitPerKeyword: int, now: Utils.Date, minMonths: int)
    ensures Collected(Aggregate(keywords, cardsFor, limitPerKeyword, now, minMonths), keywords, minMonths)
  {
    if keywords != [] {
      var p := keywords[..|keywords| - 1];
      var last := keywords[|keywords| - 1];
      AggregateCollected(p, cardsFor, limitPerKeyword, now, minMonths);
      var t := Aggregate(p, cardsFor, limitPerKeyword, now, minMonths);
      CollectedMoreKeywords(t, p, keywords, minMonths);
      KeywordScanCollected(t, keywords, last, Inspected(cardsFor(last), limitPerKeyword), now, minMonths);
    }
  }

  lemma CollectedMoreKeywords(t: Table, keywords: seq<string>, more: seq<string>, minMonths: int)
    requires Collected(t, keywords, minMonths) && keywords <= more
    ensures Collected(t, more, minMonths)
  {
    forall k | k in t.records ensures Unenriched(k, t.records[k], more, minMonths) {
      UnenrichedMoreKeywords(k, t.records[k], keywords, more, minMonths);
    }
  }

  lemma UnenrichedMoreKeywords(k: string, a: Advertiser, keywords: seq<string>, more: seq<string>, minMonths: int)
    requires Unenriched(k, a, keywords, minMonths) && keywords <= more
    ensures Unenriched(k, a, more, minMonths)
  {
    forall w | w in a.keywordsMatched ensures w in more {
      var i :| 0 <= i < |keywords| && keywords[i] == w;
      assert more[i] == w;
    }
  }

  /** The worked example: the same advertiser seen under `"a"`, again under `"a"`,
      then under `"b"`, lists the keywords `["a", "b"]`. */
  lemma ExampleKeywordsDeduplicated(s: Sighting)
    ensures var t := Record(Record(Record(EmptyTable, s, "a"), s, "a"), s, "b");
            t.records[s.key].keywordsMatched == ["a", "b"] && t.order == [s.key]
  {
    var t1 := Record(EmptyTable, s, "a");
    assert t1.records[s.key].keywordsMatched == ["a"];
    var t2 := Record(t1, s, "a");
    assert t2.records[s.key].keywordsMatched == ["a"];
    assert "b" !in ["a"];
  }

  // ---------------------------------------------------------------------------
  // The aggregation as a replay of sightings
  // ---------------------------------------------------------------------------

  /** A kept card: the keyword it was found under and the sighting it gave. */
  datatype Event = Event(keyword: string, sighting: Sighting)

  /** The kept cards among `cards`, in order. */
  function CardEvents(keyword: string, cards: seq<CardOutcome>, now: Utils.Date, minMonths: int): (evs: seq<Event>)
    ensures |evs| <= |cards|
    ensures forall i :: 0 <= i < |evs| ==> evs[i].keyword == keyword && evs[i].sighting.months >= minMonths
  {
    if cards == [] then []
    else
      var prior := CardEvents(keyword, cards[..|cards| - 1], now, minMonths);
      match Admit(cards[|cards| - 1], now, minMonths)
      case None => prior
      case Some(s) => prior + [Event(keyword, s)]
  }

  /** The kept cards of every keyword's search, keyword after keyword. */
  function Events(keywords: seq<string>, cardsFor: string -> seq<CardOutcome>, limitPerKeyword: int,
                  now: Utils.Date, minMonths: int): seq<Event>
  {
    if keywords == [] then []
    else
      var last := keywords[|keywords| - 1];
      Events(keywords[..|keywords| - 1], cardsFor, limitPerKeyword, now, minMonths)
      + CardEvents(last, Inspected(cardsFor(last), limitPerKeyword), now, minMonths)
  }

  /** Every kept card was found under a searched keyword and has run at least
      `minMonths`. */
  lemma {:induction false} EventsKept(keywords: seq<string>, cardsFor: string -> seq<CardOutcome>,
                                      limitPerKeyword: int, now: Utils.Date, minMonths: int)
    ensures forall e :: e in Events(keywords, cardsFor, limitPerKeyword, now, minMonths) ==>
              e.keyword in keywords && e.sighting.months >= minMonths
  {
    if keywords != [] {
      var p := keywords[..|keywords| - 1];
      var last := keywords[|keywords| - 1];
      EventsKept(p, cardsFor, limitPerKeyword, now, minMonths);
      var more := CardEvents(last, Inspected(cardsFor(last), limitPerKeyword), now, minMonths);
      KeptAppend(keywords, p, Events(p, cardsFor, limitPerKeyword, now, minMonths), more, minMonths);
    }
  }

  lemma KeptAppend(keywords: seq<string>, p: seq<string>, prior: seq<Event>, more: seq<Event>, minMonths: int)
    requires keywords != [] && p == keywords[..|keywords| - 1]
    requires forall e :: e in prior ==> e.keyword in p && e.sighting.months >= minMonths
    requires forall i :: 0 <= i < |more| ==> more[i].keyword == keywords[|keywords| - 1] && more[i].sighting.months >= minMonths
    ensures forall e :: e in prior + more ==> e.keyword in keywords && e.sighting.months >= minMonths
  {
    assert forall w :: w in p ==> w in keywords;
  }

  /** Storing each event's sighting in turn. */
  function Replay(t: Table, evs: seq<Event>): Table {
    if evs == [] then t
    else
      var e := evs[|evs| - 1];
      Record(Replay(t, evs[..|evs| - 1]), e.sighting, e.keyword)
  }

  lemma {:induction false} ReplayAppend(t: Table, a: seq<Event>, b: seq<Event>)
    ensures Replay(t, a + b) == Replay(Replay(t, a), b)
  {
    if b == [] {
      assert a + b == a;
    } else {
      assert (a + b)[..|a + b| - 1] == a + b[..|b| - 1];
      ReplayAppend(t, a, b[..|b| - 1]);
    }
  }

  /** One keyword's card loop stores the sightings of its kept cards in order. */
  lemma {:induction false} KeywordScanReplay(t: Table, keyword: string, cards: seq<CardOutcome>,
                                             now: Utils.Date, minMonths: int)
    ensures KeywordScan(t, keyword, cards, now, minMonths) == Replay(t, CardEvents(keyword, cards, now, minMonths))
  {
    if cards != [] {
      var p := cards[..|cards| - 1];
      KeywordScanReplay(t, keyword, p, now, minMonths);
      var prior := CardEvents(keyword, p, now, minMonths);
      match Admit(cards[|cards| - 1], now, minMonths)
      case None =>
      case Some(s) =>
        assert (prior + [Event(keyword, s)])[..|prior|] == prior;
    }
  }

  /** The whole aggregation stores the sightings of all kept cards, keyword after
      keyword, starting from the empty map. */
  lemma {:induction false} AggregateReplay(keywords: seq<string>, cardsFor: string -> seq<CardOutcome>,
                                           limitPerKeyword: int, now: Utils.Date, minMonths: int)
    ensures Aggregate(keywords, cardsFor, limitPerKeyword, now, minMonths)
            == Replay(EmptyTable, Events(keywords, cardsFor, limitPerKeyword, now, minMonths))
  {
    if keywords != [] {
      var p := keywords[..|keywords| - 1];
      var last := keywords[|keywords| - 1];
      var cards := Inspected(cardsFor(last), limitPerKeyword);
      AggregateReplay(p, cardsFor, limitPerKeyword, now, minMonths);
      KeywordScanReplay(Aggregate(p, cardsFor, limitPerKeyword, now, minMonths), last, cards, now, minMonths);
      ReplayAppend(EmptyTable, Events(p, cardsFor, limitPerKeyword, now, minMonths), CardEvents(last, cards, now, minMonths));
    }
  }

  /** The advertiser key of each event, in order. */
  function Keys(evs: seq<Event>): (keys: seq<string>)
    ensures |keys| == |evs| && forall i :: 0 <= i < |evs| ==> keys[i] == evs[i].sighting.key
  {
    if evs == [] then [] else Keys(evs[..|evs| - 1]) + [evs[|evs| - 1].sighting.key]
  }

  /** The distinct values of `s`, in order of first occurrence. */
  function Dedup(s: seq<string>): (r: seq<string>)
    ensures NoDuplicates(r) && forall x :: x in r <==> x in s
  {
    if s == [] then []
    else
      assert s == s[..|s| - 1] + [s[|s| - 1]];
      AddKeyword(Dedup(s[..|s| - 1]), s[|s| - 1])
  }

  /** The events of one advertiser key, in order. */
  function SightingsOf(evs: seq<Event>, key: string): (mine: seq<Event>)
    ensures forall i :: 0 <= i < |mine| ==> mine[i].sighting.key == key && mine[i] in evs
    ensures mine == [] <==> key !in Keys(evs)
  {
    if evs == [] then []
    else
      var p := evs[..|evs| - 1];
      var e := evs[|evs| - 1];
      var prior := SightingsOf(p, key);
      assert forall x :: x in p ==> x in evs;
      if e.sighting.key == key then prior + [e] else prior
  }

  /** The keyword of each event, in order. */
  function KeywordsOf(evs: seq<Event>): (ks: seq<string>)
    ensures |ks| == |evs| && forall i :: 0 <= i < |evs| ==> ks[i] == evs[i].keyword
  {
    if evs == [] then [] else KeywordsOf(evs[..|evs| - 1]) + [evs[|evs| - 1].keyword]
  }

  /** The largest month count among the events; 0 when there are none. */
  function MaxMonths(evs: seq<Event>): (m: nat)
    ensures forall i :: 0 <= i < |evs| ==> evs[i].sighting.months <= m
    ensures evs != [] ==> exists i :: 0 <= i < |evs| && evs[i].sighting.months == m
  {
    if evs == [] then 0
    else
      var p := evs[..|evs| - 1];
      var e := evs[|evs| - 1];
      var m := MaxMonths(p);
      assert forall i :: 0 <= i < |p| ==> evs[i] == p[i];
      if m < e.sighting.months then e.sighting.months else m
  }

  /** What a run of sightings of one advertiser adds up to: the name and URL of the
      first, the largest month count, no follower count or contact, and the distinct
      keywords in the order they were first seen. */
  function Tally(mine: seq<Event>): Option<Advertiser> {
    if mine == [] then None
    else Some(Advertiser(mine[0].sighting.name, mine[0].sighting.url, MaxMonths(mine), None, PageParser.NoContact,
                         Dedup(KeywordsOf(mine))))
  }

  /** What the sightings of `key` add up to. */
  function Summary(evs: seq<Event>, key: string): Option<Advertiser> {
    Tally(SightingsOf(evs, key))
  }

  /** `t` is what storing `evs` in the empty map gives, stated without replaying: it
      lists the distinct keys of `evs` in order of first sighting, and files under
      each key exactly what its sightings add up to. */
  ghost predicate Summarises(t: Table, evs: seq<Event>) {
    && t.order == Dedup(Keys(evs))
    && (forall k :: k in t.records <==> k in Keys(evs))
    && forall k :: k in t.records ==> Summary(evs, k) == Some(t.records[k])
  }

  /** Storing a sequence of sightings in the empty map gives their summary. */
  lemma {:induction false} ReplayFromEmpty(evs: seq<Event>)
    ensures Summarises(Replay(EmptyTable, evs), evs)
  {
    if evs != [] {
      var p := evs[..|evs| - 1];
      var e := evs[|evs| - 1];
      ReplayFromEmpty(p);
      RecordSummarises(Replay(EmptyTable, p), p, e, evs);
    }
  }

  /** One more sighting keeps a table in step with the summaries. */
  lemma RecordSummarises(t: Table, p: seq<Event>, e: Event, evs: seq<Event>)
    requires evs != [] && p == evs[..|evs| - 1] && e == evs[|evs| - 1] && Summarises(t, p)
    ensures Summarises(Record(t, e.sighting, e.keyword), evs)
  {
    var r := Record(t, e.sighting, e.keyword);
    KeysSnoc(p, e, evs);
    RecordKeys(t, p, e, evs);
    forall k | k in r.records
      ensures Summary(evs, k) == Some(r.records[k])
    {
      assert k in t.records <==> k in Keys(p);
      RecordSummaryOf(t, p, e, evs, k);
    }
  }

  lemma KeysSnoc(p: seq<Event>, e: Event, evs: seq<Event>)
    requires evs != [] && p == evs[..|evs| - 1] && e == evs[|evs| - 1]
    ensures Keys(evs) == Keys(p) + [e.sighting.key]
    ensures Dedup(Keys(evs)) == AddKeyword(Dedup(Keys(p)), e.sighting.key)
  {
    assert (Keys(p) + [e.sighting.key])[..|Keys(p)|] == Keys(p);
  }

  lemma RecordKeys(t: Table, p: seq<Event>, e: Event, evs: seq<Event>)
    requires Keys(evs) == Keys(p) + [e.sighting.key]
    requires Dedup(Keys(evs)) == AddKeyword(Dedup(Keys(p)), e.sighting.key)
    requires t.order == Dedup(Keys(p)) && forall k :: k in t.records <==> k in Keys(p)
    ensures Record(t, e.sighting, e.keyword).order == Dedup(Keys(evs))
    ensures forall k :: k in Record(t, e.sighting, e.keyword).records <==> k in Keys(evs)
  {}

  lemma RecordSummaryOf(t: Table, p: seq<Event>, e: Event, evs: seq<Event>, k: string)
    requires evs != [] && p == evs[..|evs| - 1] && e == evs[|evs| - 1]
    requires k in t.records <==> k in Keys(p)
    requires k in t.records ==> Summary(p, k) == Some(t.records[k])
    requires k in Record(t, e.sighting, e.keyword).records
    ensures Summary(evs, k) == Some(Record(t, e.sighting, e.keyword).records[k])
  {
    SummaryStep(p, e, k, evs);
    SummaryNone(p, k);
    var stored := if k in t.records then Some(t.records[k]) else None;
    assert Summary(p, k) == stored;
    RecordAt(t, e.sighting, e.keyword, k);
  }

  /** A key has a summary exactly when some event carries it. */
  lemma SummaryNone(evs: seq<Event>, k: string)
    ensures Summary(evs, k).None? <==> k !in Keys(evs)
  {}

  /** What `Record` leaves under a key. */
  lemma RecordAt(t: Table, s: Sighting, keyword: string, k: string)
    requires k in Record(t, s, keyword).records
    ensures Record(t, s, keyword).records[k]
            == if k != s.key then t.records[k]
               else Merged(if k in t.records then Some(t.records[k]) else None, s, keyword)
  {}

  /** How one more sighting changes the summary of a key: as `Record` changes the
      stored record. */
  lemma SummaryStep(p: seq<Event>, e: Event, k: string, evs: seq<Event>)
    requires evs != [] && p == evs[..|evs| - 1] && e == evs[|evs| - 1]
    ensures Summary(evs, k) ==
              if e.sighting.key != k then Summary(p, k) else Some(Merged(Summary(p, k), e.sighting, e.keyword))
  {
    SightingsSnoc(p, e, k, evs);
    if e.sighting.key == k {
      TallySnoc(SightingsOf(p, k), e);
    }
  }

  /** One more sighting changes the tally as `Record` changes the stored record. */
  lemma TallySnoc(prior: seq<Event>, e: Event)
    ensures Tally(prior + [e]) == Some(Merged(Tally(prior), e.sighting, e.keyword))
  {
    OneMoreSighting(prior, e);
    if prior == [] {
      assert Dedup(KeywordsOf(prior)) == [];
      assert MaxMonths(prior) == 0;
    } else {
      TallyMore(prior, e);
    }
  }

  lemma TallyMore(prior: seq<Event>, e: Event)
    requires prior != []
    requires (prior + [e])[0] == prior[0]
    requires MaxMonths(prior + [e]) == (if MaxMonths(prior) < e.sighting.months then e.sighting.months else MaxMonths(prior))
    requires Dedup(KeywordsOf(prior + [e])) == AddKeyword(Dedup(KeywordsOf(prior)), e.keyword)
    ensures Tally(prior + [e]) == Some(Merged(Tally(prior), e.sighting, e.keyword))
  {}

  lemma SightingsSnoc(p: seq<Event>, e: Event, k: string, evs: seq<Event>)
    requires evs != [] && p == evs[..|evs| - 1] && e == evs[|evs| - 1]
    ensures SightingsOf(evs, k) == if e.sighting.key == k then SightingsOf(p, k) + [e] else SightingsOf(p, k)
  {}

  /** The parts of a summary after one more event of the same key. */
  lemma OneMoreSighting(prior: seq<Event>, e: Event)
    ensures var mine := prior + [e];
            && mine[0] == (if prior == [] then e else prior[0])
            && MaxMonths(mine) == (if MaxMonths(prior) < e.sighting.months then e.sighting.months else MaxMonths(prior))
            && Dedup(KeywordsOf(mine)) == AddKeyword(Dedup(KeywordsOf(prior)), e.keyword)
  {
    var mine := prior + [e];
    assert mine[..|mine| - 1] == prior && mine[|mine| - 1] == e;
    assert KeywordsOf(mine) == KeywordsOf(prior) + [e.keyword];
    assert KeywordsOf(mine)[..|prior|] == KeywordsOf(prior);
  }

  /** The aggregated map, stated without the card loop: the distinct keys of the
      kept cards in order of first sighting, each filed with the name and URL of its
      first sighting, the largest month count of all its sightings, no details yet,
      and each keyword it was found under, once, in search order. */
  lemma AggregateByEvents(keywords: seq<string>, cardsFor: string -> seq<CardOutcome>,
                          limitPerKeyword: int, now: Utils.Date, minMonths: int)
    ensures var t := Aggregate(keywords, cardsFor, limitPerKeyword, now, minMonths);
            var evs := Events(keywords, cardsFor, limitPerKeyword, now, minMonths);
            t.order == Dedup(Keys(evs))
            && (forall k :: k in t.records <==> k in Keys(evs))
            && forall k :: k in t.records ==> Summary(evs, k) == Some(t.records[k])
  {
    AggregateReplay(keywords, cardsFor, limitPerKeyword, now, minMonths);
    ReplayFromEmpty(Events(keywords, cardsFor, limitPerKeyword, now, minMonths));
  }

  /** The same advertiser kept at 4 months under `"a"` and at 7 months under `"b"`
      is one record of 7 months listing `["a", "b"]`; in the other order the 7
      months are kept. */
  lemma ExampleTwoKeywords(s4: Sighting, s7: Sighting)
    requires s4.key == s7.key && s4.months == 4 && s7.months == 7
    ensures var t := Replay(EmptyTable, [Event("a", s4), Event("b", s7)]);
            t.order == [s4.key] && t.records[s4.key].monthsRunning == 7
            && t.records[s4.key].keywordsMatched == ["a", "b"]
            && t.records[s4.key].companyName == s4.name
    ensures Replay(EmptyTable, [Event("a", s7), Event("b", s4)]).records[s4.key].monthsRunning == 7
  {
    ReplayTwo(Event("a", s4), Event("b", s7));
    ReplayTwo(Event("a", s7), Event("b", s4));
    assert "b" !in ["a"];
  }

  lemma ReplayTwo(e: Event, e': Event)
    ensures Replay(EmptyTable, [e, e']) == Record(Record(EmptyTable, e.sighting, e.keyword), e'.sighting, e'.keyword)
  {
    assert [e, e'][..1] == [e];
    assert [e][..0] == [];
    assert Replay(EmptyTable, [e]) == Record(EmptyTable, e.sighting, e.keyword);
  }

  // ---------------------------------------------------------------------------
  // Properties of the enrichment merge
  // ---------------------------------------------------------------------------

  /** A merged record keeps every aggregation field; each detail replaces the stored
      value unless it is null; a failed enrichment changes nothing. */
  lemma ApplyDetailsEffect(a: Advertiser, o: EnrichOutcome, f: PageParser.Field)
    ensures var r := ApplyDetails(a, o);
            && r.companyName == a.companyName && r.facebookPageUrl == a.facebookPageUrl
            && r.monthsRunning == a.monthsRunning && r.keywordsMatched == a.keywordsMatched
            && (o.EnrichFailed? ==> r == a)
            && (o.Enriched? ==>
                  && r.followers == (if o.details.followers.Some? then o.details.followers else a.followers)
                  && PageParser.Get(r.contact, f) ==
                       (if PageParser.Get(o.details.contact, f).Some? then PageParser.Get(o.details.contact, f)
                        else PageParser.Get(a.contact, f)))
  {}

  /** Merging the same details twice is merging them once. */
  lemma ApplyDetailsIdempotent(a: Advertiser, o: EnrichOutcome)
    ensures ApplyDetails(ApplyDetails(a, o), o) == ApplyDetails(a, o)
  {}

  /** Details that found nothing leave the record as it was. */
  lemma ApplyNoDetails(a: Advertiser)
    ensures ApplyDetails(a, Enriched(PageParser.NoDetails)) == a
  {}

  lemma EnrichKeepsValid(t: Table, enrich: string -> EnrichOutcome)
    requires ValidTable(t)
    ensures ValidTable(EnrichTable(t, enrich))
  {}

  /** What the returned list holds: one advertiser per key, in first-sighting
      order, each filed under its own key, run at least `minMonths`, with a
      non-empty, repeat-free list of keywords that were searched for. */
  lemma ScrapeResult(keywords: seq<string>, cardsFor: string -> seq<CardOutcome>, minMonths: int,
                     limitPerKeyword: int, now: Utils.Date, enrich: string -> EnrichOutcome)
    ensures var t := Aggregate(keywords, cardsFor, limitPerKeyword, now, minMonths);
            var advertisers := Listing(EnrichTable(t, enrich));
            && |advertisers| == |t.order| && NoDuplicates(t.order)
            && forall i :: 0 <= i < |advertisers| ==> Reported(t.order[i], advertisers[i], keywords, minMonths)
  {
    var t := Aggregate(keywords, cardsFor, limitPerKeyword, now, minMonths);
    AggregateCollected(keywords, cardsFor, limitPerKeyword, now, minMonths);
    var e := EnrichTable(t, enrich);
    var advertisers := Listing(e);
    forall i | 0 <= i < |advertisers| ensures Reported(t.order[i], advertisers[i], keywords, minMonths) {
      var k := t.order[i];
      var a := t.records[k];
      assert advertisers[i] == ApplyDetails(a, enrich(a.facebookPageUrl));
      ReportedAfterMerge(k, a, enrich(a.facebookPageUrl), keywords, minMonths);
    }
  }

  /** A returned advertiser: filed under its own key, run at least `minMonths`,
      with a non-empty, repeat-free list of searched keywords. */
  ghost predicate Reported(k: string, a: Advertiser, keywords: seq<string>, minMonths: int) {
    && k == Utils.UniqueKey(a.facebookPageUrl, a.companyName)
    && a.monthsRunning >= minMonths
    && a.keywordsMatched != [] && NoDuplicates(a.keywordsMatched)
    && forall w :: w in a.keywordsMatched ==> w in keywords
  }

  lemma ReportedAfterMerge(k: string, a: Advertiser, o: EnrichOutcome, keywords: seq<string>, minMonths: int)
    requires Unenriched(k, a, keywords, minMonths)
    requires a.keywordsMatched != [] && NoDuplicates(a.keywordsMatched)
    ensures Reported(k, ApplyDetails(a, o), keywords, minMonths)
  {
    ApplyDetailsEffect(a, o, PageParser.Email);
  }
}
