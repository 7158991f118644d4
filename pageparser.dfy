/** The page-details walk of `src/facebookPageParser.js`: the candidate About URLs of
    a page, and the loop that visits them in order, fills the follower count once,
    merges contact fields first-found-wins and stops early. What one visit extracts
    from the page is an input value (`Outcome`). */
module PageParser {
  import opened Wrappers
  import opened JsString
  import Utils
  import Followers

  // ---------------------------------------------------------------------------
  // Candidate URLs
  // ---------------------------------------------------------------------------

  /** `candidateAboutUrls(pageUrl)`: the normalised page URL, then its three About
      sub-pages, in this order. */
  function CandidateAboutUrls(pageUrl: string): (urls: seq<string>)
    ensures |urls| == 4 && urls[0] == Utils.NormalizePageUrl(pageUrl)
    ensures forall i :: 0 <= i < 4 ==> StartsWith(urls[i], Utils.NormalizePageUrl(pageUrl))
  {
    AboutUrls(Utils.NormalizePageUrl(pageUrl))
  }

  /** The page `u` and its About sub-pages. */
  function AboutUrls(u: string): (urls: seq<string>)
    ensures |urls| == 4 && urls[0] == u
    ensures forall i :: 0 <= i < 4 ==> StartsWith(urls[i], u)
  {
    ExtendsPrefix(u, "/about");
    ExtendsPrefix(u, "/about_contact_and_basic_info");
    ExtendsPrefix(u, "/about_profile_transparency");
    [u, u + "/about", u + "/about_contact_and_basic_info", u + "/about_profile_transparency"]
  }

  lemma ExtendsPrefix(u: string, suffix: string)
    ensures StartsWith(u + suffix, u)
  {
    assert (u + suffix)[..|u|] == u;
  }

  /** The four candidates are the page itself and three distinct sub-pages: no URL
      is visited twice. */
  lemma CandidatesDistinct(pageUrl: string)
    ensures var urls := CandidateAboutUrls(pageUrl);
            forall i, j :: 0 <= i < j < 4 ==> urls[i] != urls[j]
  {
    AboutUrlsDistinct(Utils.NormalizePageUrl(pageUrl));
  }

  lemma AboutUrlsDistinct(u: string)
    ensures var urls := AboutUrls(u);
            forall i, j :: 0 <= i < j < 4 ==> urls[i] != urls[j]
  {
    var urls := AboutUrls(u);
    assert |urls[0]| == |u| && |urls[1]| == |u| + 6 && |urls[2]| == |u| + 29 && |urls[3]| == |u| + 27;
  }

  // ---------------------------------------------------------------------------
  // Follower count of one page
  // ---------------------------------------------------------------------------

  /** The loop of `tryExtractFollowers` (lines 19-29) over what each locator's
      `followers` pattern captured (`None` when the locator is hidden or its text does
      not match): the first capture that does not parse to `NaN` decides, and one
      that parses to `null` ends the search with no count. */
  function FollowersFromMatches(ms: seq<Option<string>>): (r: Option<int>)
    ensures r.Some? ==> exists i :: 0 <= i < |ms| && ms[i].Some?
                                    && Followers.ParseFollowerNumber(ms[i].value) == Followers.Number(r.value)
  {
    if ms == [] then None
    else if ms[0].Some? && !Followers.ParseFollowerNumber(ms[0].value).NaN? then
      match Followers.ParseFollowerNumber(ms[0].value)
      case Number(n) => Some(n)
      case _ => None
    else
      var r := FollowersFromMatches(ms[1..]);
      assert r.Some? ==> exists i :: 1 <= i < |ms| && ms[i].Some?
                                     && Followers.ParseFollowerNumber(ms[i].value) == Followers.Number(r.value) by {
        if r.Some? {
          var i :| 0 <= i < |ms[1..]| && ms[1..][i].Some?
                   && Followers.ParseFollowerNumber(ms[1..][i].value) == Followers.Number(r.value);
          assert ms[i + 1] == ms[1..][i];
        }
      }
      r
  }

  /** Captures before the deciding one are absent or unparseable: a later count never
      replaces an earlier one, and a capture that reads as no number stops the search. */
  lemma {:induction false} FollowersFirstParsed(ms: seq<Option<string>>, i: nat)
    requires i < |ms| && ms[i].Some?
    requires forall j :: 0 <= j < i ==> ms[j].None? || Followers.ParseFollowerNumber(ms[j].value).NaN?
    ensures FollowersFromMatches(ms) ==
            match Followers.ParseFollowerNumber(ms[i].value)
            case Number(n) => Some(n)
            case NaN => FollowersFromMatches(ms[i + 1..])
            case Null => None
  {
    if i > 0 {
      assert ms[1..][i - 1] == ms[i];
      assert ms[1..][i..] == ms[i + 1..];
      FollowersFirstParsed(ms[1..], i - 1);
    }
  }

  /** No capture parses to a number or to `null`: no count. */
  lemma {:induction false} FollowersNoneParsed(ms: seq<Option<string>>)
    requires forall j :: 0 <= j < |ms| ==> ms[j].None? || Followers.ParseFollowerNumber(ms[j].value).NaN?
    ensures FollowersFromMatches(ms) == None
  {
    if ms != [] {
      FollowersNoneParsed(ms[1..]);
    }
  }

  // ---------------------------------------------------------------------------
  // Contact fields and visit outcomes
  // ---------------------------------------------------------------------------

  /** The contact record; `None` is JavaScript's `null`. */
  datatype Contact = Contact(email: Option<string>, phone: Option<string>, address: Option<string>)

  /** What visiting one candidate gives: the navigation failed (the `catch` at
      line 88), or the page loaded and the extractors returned these values. */
  datatype Outcome = NavFailed | Loaded(followers: Option<int>, contact: Contact)

  /** The walk's result, `{ followers, ...contact }`. */
  datatype Details = Details(followers: Option<int>, contact: Contact)

  const NoContact := Contact(None, None, None)

  /** The state before the first candidate. */
  const NoDetails := Details(None, NoContact)

  datatype Field = Email | Phone | Address

  function Get(c: Contact, f: Field): Option<string> {
    match f
    case Email => c.email
    case Phone => c.phone
    case Address => c.address
  }

  /** JavaScript truthiness of a string-or-null: `null` and `""` are falsy. */
  predicate Truthy(o: Option<string>) {
    o.Some? && o.value != []
  }

  /** `a || b`. */
  function Or(a: Option<string>, b: Option<string>): (r: Option<string>)
    ensures Truthy(a) ==> r == a
    ensures !Truthy(a) ==> r == b
  {
    if Truthy(a) then a else b
  }

  /** `contact.email && contact.phone && contact.address`. */
  predicate Complete(c: Contact) {
    Truthy(c.email) && Truthy(c.phone) && Truthy(c.address)
  }

  /** `contact.email || contact.phone || contact.address`. */
  predicate AnyContact(c: Contact) {
    Truthy(c.email) || Truthy(c.phone) || Truthy(c.address)
  }

  /** Lines 81-85: every field keeps a truthy stored value, else takes the new one. */
  function Merge(stored: Contact, found: Contact): (r: Contact)
    ensures forall f :: Get(r, f) == Or(Get(stored, f), Get(found, f))
  {
    Contact(Or(stored.email, found.email), Or(stored.phone, found.phone), Or(stored.address, found.address))
  }

  /** One pass of the loop body (lines 78-86). */
  function Step(d: Details, o: Outcome): (r: Details)
    ensures o.NavFailed? ==> r == d
    ensures d.followers.Some? ==> r.followers == d.followers
    ensures o.Loaded? && d.followers.None? ==> r.followers == o.followers
    ensures Complete(d.contact) ==> r.contact == d.contact
    ensures o.Loaded? ==> forall f :: Get(r.contact, f) == Or(Get(d.contact, f), Get(o.contact, f))
  {
    match o
    case NavFailed => d
    case Loaded(followers, contact) =>
      var f := if d.followers.None? then followers else d.followers;
      var c := if !Complete(d.contact) then Merge(d.contact, contact) else d.contact;
      Details(f, c)
  }

  /** The early-exit test of line 87. */
  predicate Done(d: Details) {
    d.followers.Some? && AnyContact(d.contact)
  }

  /** The state after visiting every outcome of `os` in turn, without stopping. */
  function Fold(os: seq<Outcome>): Details {
    if os == [] then NoDetails else Step(Fold(os[..|os| - 1]), os[|os| - 1])
  }

  /** How many candidates the walk visits from position `i` on: it stops right after
      the first one that leaves the state `Done`. */
  function StopFrom(os: seq<Outcome>, i: nat): (n: nat)
    requires i <= |os|
    ensures i <= n <= |os|
    decreases |os| - i
  {
    if i == |os| then |os|
    else if Done(Fold(os[..i + 1])) then i + 1
    else StopFrom(os, i + 1)
  }

  /** The number of candidates visited. */
  function Visits(os: seq<Outcome>): nat {
    StopFrom(os, 0)
  }

  /** `enrichPageDetails` on the outcomes of its visits. */
  function Enrich(os: seq<Outcome>): Details {
    Fold(os[..Visits(os)])
  }

  // ---------------------------------------------------------------------------
  // The walk
  // ---------------------------------------------------------------------------

  /** `enrichPageDetails(page, pageUrl)`, where visiting the `i`-th candidate URL
      gives `outcomes[i]`. Returns the details and the URLs visited. */
  method EnrichPageDetails(pageUrl: string, outcomes: seq<Outcome>) returns (details: Details, visited: seq<string>)
    requires |outcomes| == 4
    ensures visited == CandidateAboutUrls(pageUrl)[..Visits(outcomes)]
    ensures details == Enrich(outcomes)
  {
    var urls := CandidateAboutUrls(pageUrl);
    details, visited := VisitCandidates(urls, outcomes);
  }

  /** The loop of lines 67-91 over the candidate URLs `urls`. */
  method VisitCandidates(urls: seq<string>, outcomes: seq<Outcome>) returns (details: Details, visited: seq<string>)
    requires |outcomes| == |urls|
    ensures visited == urls[..Visits(outcomes)]
    ensures details == Enrich(outcomes)
  {
    var followers: Option<int> := None;
    var contact := NoContact;
    visited := [];
    var i := 0;
    while i < |urls|
      invariant 0 <= i <= |urls|
      invariant visited == urls[..i]
      invariant Details(followers, contact) == Fold(outcomes[..i])
      invariant StopFrom(outcomes, i) == Visits(outcomes)
      invariant i > 0 ==> !Done(Fold(outcomes[..i]))
    {
      visited := visited + [urls[i]];
      FoldLast(outcomes, i);
      ghost var before := Details(followers, contact);
      match outcomes[i] {
        case NavFailed =>
          NotDoneAfterFailure(outcomes, i);
        case Loaded(f, c) =>
          if followers == None {
            followers := f;
          }
          if !Truthy(contact.email) || !Truthy(contact.phone) || !Truthy(contact.address) {
            contact := Contact(Or(contact.email, c.email), Or(contact.phone, c.phone), Or(contact.address, c.address));
          }
          StepLoaded(before, f, c);
          if followers != None && (Truthy(contact.email) || Truthy(contact.phone) || Truthy(contact.address)) {
            assert Done(Fold(outcomes[..i + 1]));
            assert StopFrom(outcomes, i) == i + 1;
            i := i + 1;
            break;
          }
      }
      i := i + 1;
    }
    details := Details(followers, contact);
  }

  /** `Step` on a loaded page, spelled as the loop body's assignments. */
  lemma StepLoaded(d: Details, f: Option<int>, c: Contact)
    ensures Step(d, Loaded(f, c)) ==
            Details(if d.followers == None then f else d.followers,
                    if !Truthy(d.contact.email) || !Truthy(d.contact.phone) || !Truthy(d.contact.address)
                    then Contact(Or(d.contact.email, c.email), Or(d.contact.phone, c.phone), Or(d.contact.address, c.address))
                    else d.contact)
  {}

  lemma FoldLast(os: seq<Outcome>, i: nat)
    requires i < |os|
    ensures Fold(os[..i + 1]) == Step(Fold(os[..i]), os[i])
  {
    assert os[..i + 1][..i] == os[..i];
  }

  /** A failed visit leaves the state as it was, so it never completes the walk. */
  lemma NotDoneAfterFailure(os: seq<Outcome>, i: nat)
    requires i < |os| && os[i].NavFailed?
    requires i > 0 ==> !Done(Fold(os[..i]))
    ensures !Done(Fold(os[..i + 1]))
  {
    assert os[..i + 1][..i] == os[..i];
  }

  // ---------------------------------------------------------------------------
  // Properties of the walk
  // ---------------------------------------------------------------------------

  /** The walk visits at least one candidate when there is one, never more than there
      are, stops right after the first candidate that makes both a follower count and
      some contact field known, and only runs to the end when none does. */
  lemma VisitsIsFirstStop(os: seq<Outcome>)
    ensures Visits(os) <= |os|
    ensures os != [] ==> Visits(os) >= 1
    ensures Visits(os) < |os| ==> Done(Fold(os[..Visits(os)]))
    ensures forall k :: 1 <= k < Visits(os) ==> !Done(Fold(os[..k]))
    ensures (exists k :: 1 <= k <= |os| && Done(Fold(os[..k]))) ==> Done(Fold(os[..Visits(os)]))
  {
    StopFromIsFirstStop(os, 0);
  }

  lemma {:induction false} StopFromIsFirstStop(os: seq<Outcome>, i: nat)
    requires i <= |os|
    ensures var n := StopFrom(os, i);
            && (n < |os| ==> Done(Fold(os[..n])))
            && (i < |os| ==> n > i)
            && (forall k :: i < k < n ==> !Done(Fold(os[..k])))
            && ((exists k :: i < k <= |os| && Done(Fold(os[..k]))) ==> Done(Fold(os[..n])))
    decreases |os| - i
  {
    if i < |os| && !Done(Fold(os[..i + 1])) {
      StopFromIsFirstStop(os, i + 1);
      var n := StopFrom(os, i + 1);
      if exists k :: i < k <= |os| && Done(Fold(os[..k])) {
        var k :| i < k <= |os| && Done(Fold(os[..k]));
        assert k != i + 1;
      }
    }
  }

  /** The first follower count found, reading the outcomes from the front: the
      follower value of the first loaded page that has one. */
  function FirstFollowers(os: seq<Outcome>): Option<int> {
    if os == [] then None
    else if os[0].Loaded? && os[0].followers.Some? then os[0].followers
    else FirstFollowers(os[1..])
  }

  /** `followers` is the first count any loaded candidate gave (line 78). */
  lemma {:induction false} FoldFollowers(os: seq<Outcome>)
    ensures Fold(os).followers == FirstFollowers(os)
  {
    if os != [] {
      var p := os[..|os| - 1];
      FoldFollowers(p);
      FirstFollowersSnoc(p, os[|os| - 1]);
      assert p + [os[|os| - 1]] == os;
    }
  }

  lemma {:induction false} FirstFollowersSnoc(p: seq<Outcome>, o: Outcome)
    ensures FirstFollowers(p + [o]) ==
            if FirstFollowers(p).Some? then FirstFollowers(p)
            else if o.Loaded? then o.followers else None
  {
    if p != [] {
      assert (p + [o])[1..] == p[1..] + [o];
      FirstFollowersSnoc(p[1..], o);
    } else {
      assert (p + [o])[1..] == [];
    }
  }

  /** Once known, the follower count is never overwritten by a later candidate. */
  lemma {:induction false} FollowersNeverOverwritten(os: seq<Outcome>, i: nat)
    requires i <= |os| && Fold(os[..i]).followers.Some?
    ensures Fold(os).followers == Fold(os[..i]).followers
    decreases |os| - i
  {
    if i < |os| {
      assert os[..i + 1][..i] == os[..i];
      FollowersNeverOverwritten(os, i + 1);
    } else {
      assert os[..i] == os;
    }
  }

  /** The values a field takes in the loaded outcomes, in visiting order. */
  function Found(os: seq<Outcome>, f: Field): seq<Option<string>> {
    if os == [] then []
    else (if os[0].Loaded? then [Get(os[0].contact, f)] else []) + Found(os[1..], f)
  }

  /** The first truthy value, or the last value when none is truthy, or `None`
      when there are no values. */
  function FirstTruthy(vs: seq<Option<string>>): (r: Option<string>)
    ensures r in vs || (vs == [] && r == None)
    ensures (exists v :: v in vs && Truthy(v)) <==> Truthy(r)
  {
    if vs == [] then None
    else if Truthy(vs[0]) || |vs| == 1 then vs[0]
    else FirstTruthy(vs[1..])
  }

  /** Each contact field is the first truthy value any loaded candidate gave,
      independently of the other two fields (lines 79-85). */
  lemma {:induction false} FoldContact(os: seq<Outcome>, f: Field)
    ensures Get(Fold(os).contact, f) == FirstTruthy(Found(os, f))
  {
    if os != [] {
      var p := os[..|os| - 1];
      var o := os[|os| - 1];
      FoldContact(p, f);
      assert p + [o] == os;
      FoundSnoc(p, o, f);
      if o.Loaded? {
        FirstTruthySnoc(Found(p, f), Get(o.contact, f));
      } else {
        assert Found(p, f) + [] == Found(p, f);
      }
    }
  }

  lemma {:induction false} FoundSnoc(p: seq<Outcome>, o: Outcome, f: Field)
    ensures Found(p + [o], f) == Found(p, f) + (if o.Loaded? then [Get(o.contact, f)] else [])
  {
    var tail := if o.Loaded? then [Get(o.contact, f)] else [];
    if p == [] {
      assert (p + [o])[1..] == [];
      assert Found(p + [o], f) == tail + [];
    } else {
      var q := p + [o];
      assert q[0] == p[0] && q[1..] == p[1..] + [o];
      var head := if p[0].Loaded? then [Get(p[0].contact, f)] else [];
      FoundSnoc(p[1..], o, f);
      assert Found(q, f) == head + Found(p[1..] + [o], f);
      assert Found(p, f) == head + Found(p[1..], f);
      assert head + (Found(p[1..], f) + tail) == (head + Found(p[1..], f)) + tail;
    }
  }

  lemma {:induction false} FirstTruthySnoc(vs: seq<Option<string>>, v: Option<string>)
    ensures FirstTruthy(vs + [v]) == Or(FirstTruthy(vs), v)
  {
    if vs != [] {
      assert (vs + [v])[1..] == vs[1..] + [v];
      FirstTruthySnoc(vs[1..], v);
    }
  }

  /** The result of the walk: the first follower count and the first truthy value of
      each contact field among the candidates visited. */
  lemma EnrichFirstFound(os: seq<Outcome>, f: Field)
    ensures Enrich(os).followers == FirstFollowers(os[..Visits(os)])
    ensures Get(Enrich(os).contact, f) == FirstTruthy(Found(os[..Visits(os)], f))
  {
    FoldFollowers(os[..Visits(os)]);
    FoldContact(os[..Visits(os)], f);
  }

  /** The worked example: the first page gives a phone and no email, the second an
      email and another phone; the first phone and the email are kept. */
  lemma ExampleFirstPhoneKept()
    ensures var os := [Loaded(None, Contact(None, Some("555-1234"), None)),
                       Loaded(None, Contact(Some("a@b.com"), Some("555-9999"), None))];
            Fold(os).contact == Contact(Some("a@b.com"), Some("555-1234"), None)
  {
    var d1 := Step(NoDetails, Loaded(None, Contact(None, Some("555-1234"), None)));
    assert d1.contact == Contact(None, Some("555-1234"), None);
    var os := [Loaded(None, Contact(None, Some("555-1234"), None)),
               Loaded(None, Contact(Some("a@b.com"), Some("555-9999"), None))];
    assert os[..1] == [os[0]];
    assert Fold(os[..1]) == d1;
  }
}
