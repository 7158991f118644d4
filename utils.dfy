/** The pure helpers of `src/utils.js`: whole-month durations, page-URL
    normalisation, the advertiser key, and the choice of a card's page link. */
module Utils {
  import opened Wrappers
  import opened JsString

  // ---------------------------------------------------------------------------
  // Durations
  // ---------------------------------------------------------------------------

  /** A calendar date as JavaScript's `getFullYear()`, `getMonth()` and `getDate()`
      report it (the month is 1-based here; only month differences matter). */
  datatype Date = Date(year: int, month: int, day: int)

  /** `computeMonthsBetween(start, end)`: month difference, one less when the end's
      day of month is before the start's, never negative. */
  function MonthsBetween(start: Date, end: Date): (r: nat)
  {
    var total := (end.year - start.year) * 12 + (end.month - start.month)
                 - (if end.day < start.day then 1 else 0);
    if total < 0 then 0 else total
  }

  function MonthIndex(d: Date): int {
    d.year * 12 + d.month
  }

  /** Moving `start` forward by `k` calendar months, keeping its day of month,
      lands on or before `end`. */
  predicate ShiftedOnOrBefore(start: Date, k: int, end: Date) {
    MonthIndex(start) + k < MonthIndex(end)
    || (MonthIndex(start) + k == MonthIndex(end) && start.day <= end.day)
  }

  /** The result is the number of whole months elapsed: a positive `k` is at most
      the result exactly when `k` months after `start` is not after `end`. */
  lemma MonthsBetweenCountsWholeMonths(start: Date, end: Date, k: nat)
    ensures k <= MonthsBetween(start, end) <==> (k == 0 || ShiftedOnOrBefore(start, k, end))
  {}

  /** The result is never negative and is zero whenever `end` is before `start`. */
  lemma MonthsBetweenNonNegative(start: Date, end: Date)
    ensures MonthsBetween(start, end) >= 0
    ensures MonthIndex(end) < MonthIndex(start) ==> MonthsBetween(start, end) == 0
  {}

  /** A later end date never gives fewer months. */
  lemma MonthsBetweenMonotone(start: Date, end: Date, later: Date)
    requires MonthIndex(end) < MonthIndex(later)
             || (MonthIndex(end) == MonthIndex(later) && end.day <= later.day)
    ensures MonthsBetween(start, end) <= MonthsBetween(start, later)
  {}

  lemma MonthsBetweenExamples()
    ensures forall d: Date :: MonthsBetween(d, d) == 0
    ensures MonthsBetween(Date(2024, 1, 15), Date(2024, 3, 10)) == 1
    ensures MonthsBetween(Date(2024, 1, 10), Date(2024, 3, 10)) == 2
    ensures MonthsBetween(Date(2023, 11, 30), Date(2024, 2, 29)) == 2
  {}

  // ---------------------------------------------------------------------------
  // Page-URL normalisation
  // ---------------------------------------------------------------------------

  /** The base every relative link is resolved against. */
  const FacebookOrigin: string := "https://www.facebook.com"

  predicate IsAlpha(c: char) { ('a' <= c <= 'z') || ('A' <= c <= 'Z') }

  predicate IsSchemeChar(c: char) {
    IsAlpha(c) || IsDigit(c) || c == '+' || c == '-' || c == '.'
  }

  /** Length of the run of scheme characters at the start of `s`. */
  function SchemeRun(s: string): (n: nat)
    ensures n <= |s|
    ensures n < |s| ==> !IsSchemeChar(s[n])
  {
    if s != [] && IsSchemeChar(s[0]) then 1 + SchemeRun(s[1..]) else 0
  }

  /** `s` starts with `scheme ":"`, the scheme a letter followed by scheme characters. */
  predicate HasScheme(s: string) {
    s != [] && IsAlpha(s[0]) && SchemeRun(s) < |s| && s[SchemeRun(s)] == ':'
  }

  predicate IsScheme(scheme: string) {
    scheme != [] && IsAlpha(scheme[0]) && forall i :: 0 <= i < |scheme| ==> IsSchemeChar(scheme[i])
  }

  /** A parsed URL: its lower-cased scheme and everything after the scheme's colon. */
  datatype Url = Url(scheme: string, rest: string)

  /** `URL.prototype.toString`. */
  function Serialize(u: Url): string {
    u.scheme + ":" + u.rest
  }

  /** The schemes whose URLs need a host. */
  predicate IsSpecialScheme(scheme: string) {
    scheme in {"http", "https", "ws", "wss", "ftp"}
  }

  /** `s` without its leading `/` characters. */
  function SkipSlashes(s: string): (r: string)
    ensures r == [] || r[0] != '/'
  {
    if s != [] && s[0] == '/' then SkipSlashes(s[1..]) else s
  }

  /** What follows the colon has an empty authority (`https://`, `http:///?q`). */
  predicate HostMissing(rest: string) {
    var host := SkipSlashes(rest);
    host == [] || host[0] == '?' || host[0] == '#'
  }

  /** `rest` is `//` followed by a non-empty host: what a special URL serialises to
      after its scheme. */
  predicate HasHost(rest: string) {
    |rest| > 2 && rest[..2] == "//" && rest[2] != '/' && rest[2] != '?' && rest[2] != '#'
  }

  /** The URL parser accepts `u`: a special scheme needs a host. */
  predicate WellFormed(u: Url) {
    IsScheme(u.scheme) && ToLower(u.scheme) == u.scheme
    && (IsSpecialScheme(u.scheme) ==> HasHost(u.rest))
  }

  /** The scheme prefix of a string that has one. */
  function SchemeOf(s: string): (scheme: string)
    requires HasScheme(s)
    ensures IsScheme(scheme) && ToLower(scheme) == scheme
  {
    var n := SchemeRun(s);
    SchemeRunChars(s);
    var scheme := ToLower(s[..n]);
    forall i | 0 <= i < n ensures IsSchemeChar(scheme[i]) {
      LowerKeepsSchemeChar(s[i]);
    }
    LowerIdempotent(s[..n]);
    scheme
  }

  /** A special URL's authority: the slashes after the colon, however many, become
      `//`. */
  function Authority(rest: string): string {
    "//" + SkipSlashes(rest)
  }

  /** A scheme-less input resolved against `https://www.facebook.com`: `//host/...`
      takes the base's scheme, `/path` the base's origin, and anything else is a path
      under the base's root. */
  function RelativeToBase(s: string): (u: Url)
    ensures u.scheme == "https"
  {
    if StartsWith(s, "//") then Url("https", Authority(s))
    else if StartsWith(s, "/") then Url("https", "//www.facebook.com" + s)
    else Url("https", "//www.facebook.com/" + s)
  }

  /** An input with a scheme: a non-special scheme keeps what follows its colon; the
      base's own scheme `https` makes the rest relative to the base (so `https:page`
      is a page under the base); another special scheme reads a host after any
      slashes. */
  function WithScheme(scheme: string, rest: string): Url {
    if !IsSpecialScheme(scheme) then Url(scheme, rest)
    else if scheme == "https" then RelativeToBase(rest)
    else Url(scheme, Authority(rest))
  }

  /** `new URL(url, "https://www.facebook.com")`, at the string level; `None` where
      the parser throws. */
  function Resolve(url: string): (r: Option<Url>)
    ensures r.Some? ==> WellFormed(r.value)
  {
    var u :=
      if HasScheme(url) then WithScheme(SchemeOf(url), url[SchemeRun(url) + 1..])
      else RelativeToBase(url);
    if WellFormed(u) then Some(u) else None
  }

  /** Setting `search` and `hash` to empty: everything from the first `?` or `#` on
      is dropped (a `#` inside the query, or a `?` inside the fragment, goes with it). */
  function CutQueryAndFragment(s: string): (r: string)
    ensures |r| <= |s| && r == s[..|r|]
    ensures '?' !in r && '#' !in r
    ensures |r| < |s| ==> s[|r|] == '?' || s[|r|] == '#'
  {
    if s == [] || s[0] == '?' || s[0] == '#' then [] else [s[0]] + CutQueryAndFragment(s[1..])
  }

  /** `if (s.endsWith('/')) s = s.slice(0, -1)`. */
  function DropTrailingSlash(s: string): (r: string)
    ensures EndsWith(s, "/") ==> r + "/" == s
    ensures !EndsWith(s, "/") ==> r == s
  {
    if EndsWith(s, "/") then s[..|s| - 1] else s
  }

  /** `normalizePageUrl(url)`. */
  function NormalizePageUrl(url: string): string {
    match Resolve(url)
    case None => url
    case Some(u) => NormalForm(u)
  }

  /** What a parsed URL normalises to. */
  function NormalForm(u: Url): string {
    DropTrailingSlash(Serialize(u.(rest := CutQueryAndFragment(u.rest))))
  }

  /** A URL the parser accepts normalises to its scheme, a colon and what follows
      up to the first `?` or `#`, less at most one trailing `/`: in particular no
      query and no fragment remain. */
  lemma NormalizeStripsQueryAndFragment(url: string)
    requires Resolve(url).Some?
    ensures var u := Resolve(url).value;
            var rest := DropTrailingSlash(CutQueryAndFragment(u.rest));
            NormalizePageUrl(url) == u.scheme + ":" + rest
            && (rest == CutQueryAndFragment(u.rest) || rest + "/" == CutQueryAndFragment(u.rest))
    ensures '?' !in NormalizePageUrl(url) && '#' !in NormalizePageUrl(url)
  {
    NormalFormShape(Resolve(url).value);
  }

  lemma NormalFormShape(u: Url)
    requires WellFormed(u)
    ensures var rest := DropTrailingSlash(CutQueryAndFragment(u.rest));
            NormalForm(u) == u.scheme + ":" + rest
            && (rest == CutQueryAndFragment(u.rest) || rest + "/" == CutQueryAndFragment(u.rest))
    ensures '?' !in NormalForm(u) && '#' !in NormalForm(u)
  {
    var cut := CutQueryAndFragment(u.rest);
    var rest := DropTrailingSlash(cut);
    DropSlashAfterColon(u.scheme, cut);
    assert '?' !in rest && '#' !in rest by {
      if rest + "/" == cut {
        assert '?' !in rest + "/" && '#' !in rest + "/";
      }
    }
    SchemeHasNoQueryMark(u.scheme);
  }

  lemma SchemeHasNoQueryMark(scheme: string)
    requires IsScheme(scheme)
    ensures '?' !in scheme && '#' !in scheme
  {
    forall i | 0 <= i < |scheme| ensures scheme[i] != '?' && scheme[i] != '#' {
      assert IsSchemeChar(scheme[i]);
    }
  }

  /** A URL the parser refuses comes back unchanged instead of raising. */
  lemma NormalizeFailsSoft(url: string)
    requires Resolve(url).None?
    ensures NormalizePageUrl(url) == url
  {}

  /** A root-relative path gets the Facebook origin in front. */
  lemma NormalizeRootRelative(path: string)
    requires StartsWith(path, "/") && !StartsWith(path, "//")
    requires '?' !in path && '#' !in path
    ensures NormalizePageUrl(path) == DropTrailingSlash(FacebookOrigin + path)
  {
    var rest := "//www.facebook.com" + path;
    ResolveRootRelative(path);
    OriginHasNoQuery(path, rest);
    NormalFormPlain(Url("https", rest));
    OriginPlusPath(path);
  }

  lemma OriginHasNoQuery(path: string, rest: string)
    requires '?' !in path && '#' !in path && rest == "//www.facebook.com" + path
    ensures '?' !in rest && '#' !in rest
  {}

  /** Without a query or a fragment, normalising only drops a trailing slash. */
  lemma NormalFormPlain(u: Url)
    requires '?' !in u.rest && '#' !in u.rest
    ensures NormalForm(u) == DropTrailingSlash(Serialize(u))
  {
    CutNoop(u.rest);
  }

  lemma ResolveRootRelative(path: string)
    requires StartsWith(path, "/") && !StartsWith(path, "//")
    ensures Resolve(path) == Some(Url("https", "//www.facebook.com" + path))
  {
    assert !HasScheme(path);
    assert RelativeToBase(path) == Url("https", "//www.facebook.com" + path);
    HttpsWellFormed("//www.facebook.com" + path);
  }

  lemma OriginPlusPath(path: string)
    ensures "https" + ":" + ("//www.facebook.com" + path) == FacebookOrigin + path
  {}

  lemma HttpsWellFormed(rest: string)
    requires StartsWith(rest, "//www.facebook.com")
    ensures WellFormed(Url("https", rest))
  {
    assert rest[..2] == "//" && rest[2] == 'w';
    assert IsScheme("https");
    assert ToLower("https") == "https";
  }

  /** The authority read after a special scheme has a host exactly when the slashes
      are followed by something other than a query or a fragment. */
  lemma AuthorityHost(rest: string)
    ensures HasHost(Authority(rest)) <==> !HostMissing(rest)
  {
    var h := SkipSlashes(rest);
    assert Authority(rest) == "//" + h;
    if h != [] {
      assert Authority(rest)[2] == h[0];
    }
  }

  /** A host already written as `//host` is its own authority. */
  lemma AuthorityOfHost(rest: string)
    requires HasHost(rest)
    ensures StartsWith(rest, "//") && Authority(rest) == rest
  {
    var y := rest[2..];
    assert rest == "/" + ("/" + y);
    SkipLeadingSlash("/" + y);
    SkipLeadingSlash(y);
    assert y[0] == rest[2];
  }

  lemma SkipLeadingSlash(y: string)
    ensures SkipSlashes("/" + y) == SkipSlashes(y)
  {
    assert ("/" + y)[1..] == y;
  }

  lemma {:induction false} CutNoop(s: string)
    requires '?' !in s && '#' !in s
    ensures CutQueryAndFragment(s) == s
  {
    if s != [] {
      CutNoop(s[1..]);
    }
  }

  lemma LowerKeepsSchemeChar(c: char)
    ensures IsSchemeChar(LowerChar(c)) <==> IsSchemeChar(c)
  {}

  lemma {:induction false} SchemeRunChars(s: string)
    ensures forall i :: 0 <= i < SchemeRun(s) ==> IsSchemeChar(s[i])
  {
    if s != [] && IsSchemeChar(s[0]) {
      SchemeRunChars(s[1..]);
      assert forall i :: 1 <= i < SchemeRun(s) ==> s[i] == s[1..][i - 1];
    }
  }

  /** The scheme run of `a + b` stops inside `a` when it does so in `a` alone. */
  lemma {:induction false} SchemeRunAppend(a: string, b: string)
    ensures SchemeRun(a + b) == if SchemeRun(a) < |a| then SchemeRun(a) else |a| + SchemeRun(b)
  {
    if a == [] {
      assert a + b == b;
    } else {
      assert (a + b)[1..] == a[1..] + b;
      SchemeRunAppend(a[1..], b);
    }
  }

  lemma {:induction false} SchemeRunOfScheme(scheme: string)
    requires forall i :: 0 <= i < |scheme| ==> IsSchemeChar(scheme[i])
    ensures SchemeRun(scheme) == |scheme|
  {
    if scheme != [] {
      SchemeRunOfScheme(scheme[1..]);
    }
  }

  /** Serialising a well-formed URL and parsing the result gives it back. */
  lemma ResolveSerialized(u: Url)
    requires WellFormed(u)
    ensures Resolve(Serialize(u)) == Some(u)
  {
    var s := Serialize(u);
    assert s == u.scheme + (":" + u.rest);
    SchemeRunOfScheme(u.scheme);
    SchemeRunAppend(u.scheme, ":" + u.rest);
    assert SchemeRun(s) == |u.scheme|;
    assert s[..|u.scheme|] == u.scheme;
    assert s[|u.scheme| + 1..] == u.rest;
    assert HasScheme(s);
    if IsSpecialScheme(u.scheme) {
      AuthorityOfHost(u.rest);
    }
  }

  /** Dropping a trailing slash never reaches back over the scheme's colon. */
  lemma DropSlashAfterColon(scheme: string, rest: string)
    ensures DropTrailingSlash(scheme + ":" + rest) == scheme + ":" + DropTrailingSlash(rest)
  {
    if rest != [] {
      DropSlashAppend(scheme + ":", rest);
    } else {
      assert scheme + ":" + rest == scheme + ":";
      assert (scheme + ":")[|scheme|..] == ":";
    }
  }

  /** A host that was present is still present once the query and fragment are
      cut and a trailing slash is dropped. */
  lemma HostKept(rest: string)
    requires HasHost(rest)
    ensures HasHost(DropTrailingSlash(CutQueryAndFragment(rest)))
  {
    var head := rest[..3];
    var t := rest[3..];
    assert rest == head + t;
    CutAfterHead(head, t);
    var tail := CutQueryAndFragment(t);
    if tail == [] {
      assert head + tail == head;
      assert !EndsWith(head, "/");
    } else {
      DropSlashAppend(head, tail);
    }
    assert (head + DropTrailingSlash(tail))[..3] == head;
  }

  /** Cutting the query and fragment keeps `//` and the host's first character. */
  lemma CutAfterHead(head: string, t: string)
    requires |head| == 3 && '?' !in head && '#' !in head
    ensures CutQueryAndFragment(head + t) == head + CutQueryAndFragment(t)
  {
    var s := head + t;
    assert s[1..] == head[1..] + t && s[1..][1..] == head[2..] + t && s[1..][1..][1..] == t;
    assert s[0] == head[0] && s[1..][0] == head[1] && s[1..][1..][0] == head[2];
    assert head == [head[0]] + ([head[1]] + [head[2]]);
  }

  lemma DropSlashAppend(a: string, b: string)
    requires b != []
    ensures DropTrailingSlash(a + b) == a + DropTrailingSlash(b)
  {
    assert (a + b)[|a + b| - 1] == b[|b| - 1];
    if EndsWith(b, "/") {
      assert (a + b)[..|a + b| - 1] == a + b[..|b| - 1];
    }
  }

  /** Normalising twice gives the once-normalised string exactly when the parser
      refused the input or the result does not end in `/`: each pass strips only
      one trailing slash, so `https://www.facebook.com/page//` is not a fixed point. */
  lemma NormalizeIdempotentUnlessSlash(url: string)
    ensures NormalizePageUrl(NormalizePageUrl(url)) == NormalizePageUrl(url)
            <==> (Resolve(url).None? || !EndsWith(NormalizePageUrl(url), "/"))
  {
    if Resolve(url).Some? {
      var u := Resolve(url).value;
      NormalFormReparsed(u);
      DropSlashFixedPoint(NormalForm(u));
    }
  }

  /** A normalised URL parses again, to the same scheme and the shortened rest, and
      normalising it once more drops one more trailing slash, if any. */
  lemma NormalFormReparsed(u: Url)
    requires WellFormed(u)
    ensures Resolve(NormalForm(u)).Some?
    ensures NormalForm(Resolve(NormalForm(u)).value) == DropTrailingSlash(NormalForm(u))
  {
    var cut := CutQueryAndFragment(u.rest);
    var rest := DropTrailingSlash(cut);
    var v := Url(u.scheme, rest);
    NormalFormShape(u);
    assert NormalForm(u) == Serialize(v);
    if IsSpecialScheme(u.scheme) {
      HostKept(u.rest);
    }
    assert WellFormed(v);
    ResolveSerialized(v);
    assert '?' !in rest && '#' !in rest by {
      if rest + "/" == cut {
        assert '?' !in rest + "/" && '#' !in rest + "/";
      }
    }
    CutNoop(rest);
    assert v.(rest := CutQueryAndFragment(v.rest)) == v;
  }

  /** A query or fragment after a path, and a single trailing `/` after it, both
      vanish: the two URLs normalise to the same string. */
  lemma QueryAndSlashAgree(scheme: string, path: string, tail: string)
    requires WellFormed(Url(scheme, path + tail)) && WellFormed(Url(scheme, path + "/"))
    requires '?' !in path && '#' !in path && !EndsWith(path, "/")
    requires tail != [] && (tail[0] == '?' || tail[0] == '#')
    ensures NormalizePageUrl(scheme + ":" + (path + tail)) == scheme + ":" + path
    ensures NormalizePageUrl(scheme + ":" + (path + "/")) == scheme + ":" + path
  {
    CutBeforeTail(path, tail);
    NormalizeSerialized(Url(scheme, path + tail));
    DropSlashAfterColon(scheme, path);
    assert '?' !in path + "/" && '#' !in path + "/";
    CutNoop(path + "/");
    NormalizeSerialized(Url(scheme, path + "/"));
    DropSlashAfterColon(scheme, path + "/");
  }

  lemma {:induction false} CutBeforeTail(path: string, tail: string)
    requires '?' !in path && '#' !in path
    requires tail != [] && (tail[0] == '?' || tail[0] == '#')
    ensures CutQueryAndFragment(path + tail) == path
  {
    if path == [] {
      assert path + tail == tail;
    } else {
      assert (path + tail)[1..] == path[1..] + tail;
      CutBeforeTail(path[1..], tail);
    }
  }

  /** Dropping a trailing slash is the identity exactly when there is none. */
  lemma DropSlashFixedPoint(s: string)
    ensures DropTrailingSlash(s) == s <==> !EndsWith(s, "/")
  {
    if EndsWith(s, "/") {
      assert |DropTrailingSlash(s)| < |s|;
    }
  }

  /** Normalising the text of a URL the parser accepts gives its normal form. */
  lemma NormalizeSerialized(u: Url)
    requires WellFormed(u)
    ensures NormalizePageUrl(Serialize(u)) == NormalForm(u)
  {
    ResolveSerialized(u);
  }

  /** A special scheme with an empty authority is refused by the parser, so the URL
      comes back as given. (`https:` without `//` is relative instead: see
      `SameSchemeIsRelative`.) */
  lemma MissingHostRefused(scheme: string, rest: string)
    requires IsScheme(scheme) && ToLower(scheme) == scheme && IsSpecialScheme(scheme)
    requires HostMissing(rest) && (scheme != "https" || StartsWith(rest, "//"))
    ensures Resolve(scheme + ":" + rest).None?
    ensures NormalizePageUrl(scheme + ":" + rest) == scheme + ":" + rest
  {
    var url := scheme + ":" + rest;
    SchemePrefix(url, scheme, rest);
    ResolveAbsolute(url, scheme, rest);
    AuthorityHost(rest);
    NormalizeFailsSoft(url);
  }

  /** `https:` without `//` shares the base's scheme and so is relative to it:
      `https:page` is a page under `https://www.facebook.com/`, and a rest without a
      scheme of its own resolves as if `https:` were not there. */
  lemma SameSchemeIsRelative(rest: string)
    ensures !HasScheme(rest) ==> Resolve("https:" + rest) == Resolve(rest)
    ensures !StartsWith(rest, "//") ==> Resolve("https:" + rest) == Some(RelativeToBase(rest))
  {
    HttpsIsSpecial();
    SchemePrefix("https:" + rest, "https", rest);
    ResolveAbsolute("https:" + rest, "https", rest);
    if !StartsWith(rest, "//") {
      if StartsWith(rest, "/") {
        HttpsWellFormed("//www.facebook.com" + rest);
      } else {
        HttpsWellFormed("//www.facebook.com/" + rest);
      }
    }
  }

  /** Another special scheme reads a host after any number of slashes, and is
      refused when there is none. */
  lemma OtherSpecialTakesHost(scheme: string, rest: string)
    requires IsScheme(scheme) && ToLower(scheme) == scheme && IsSpecialScheme(scheme)
    requires scheme != "https"
    ensures Resolve(scheme + ":" + rest)
            == if HostMissing(rest) then None else Some(Url(scheme, Authority(rest)))
  {
    var url := scheme + ":" + rest;
    SchemePrefix(url, scheme, rest);
    ResolveAbsolute(url, scheme, rest);
    AuthorityHost(rest);
  }

  /** `https:` followed by a plain path names that path under the base's root. */
  lemma NormalizeSameSchemePath(rest: string)
    requires '?' !in rest && '#' !in rest && !StartsWith(rest, "/")
    ensures NormalizePageUrl("https:" + rest) == DropTrailingSlash(FacebookOrigin + "/" + rest)
  {
    var r := "//www.facebook.com" + ("/" + rest);
    SameSchemeIsRelative(rest);
    PathUnderRoot(rest, r);
    RootNoQuery(rest, r);
    NormalizeResolvedPlain("https:" + rest, Url("https", r));
    OriginSlash(rest);
    OriginPlusPath("/" + rest);
  }

  lemma PathUnderRoot(rest: string, r: string)
    requires !StartsWith(rest, "/") && r == "//www.facebook.com" + ("/" + rest)
    ensures RelativeToBase(rest) == Url("https", r)
  {
    assert "//www.facebook.com/" + rest == r;
  }

  lemma RootNoQuery(rest: string, r: string)
    requires '?' !in rest && '#' !in rest && r == "//www.facebook.com" + ("/" + rest)
    ensures '?' !in r && '#' !in r
  {
    OriginHasNoQuery("/" + rest, r);
  }

  lemma OriginSlash(rest: string)
    ensures FacebookOrigin + "/" + rest == FacebookOrigin + ("/" + rest)
  {}

  /** Once parsed, a URL without a query or fragment only loses a trailing slash. */
  lemma NormalizeResolvedPlain(url: string, u: Url)
    requires Resolve(url) == Some(u) && '?' !in u.rest && '#' !in u.rest
    ensures NormalizePageUrl(url) == DropTrailingSlash(Serialize(u))
  {
    NormalFormPlain(u);
  }

  /** `https:page` is the page `https://www.facebook.com/page`, and a bare `https:`
      the base itself. */
  lemma SameSchemeExamples()
    ensures NormalizePageUrl("https:page") == "https://www.facebook.com/page"
    ensures NormalizePageUrl("https:") == "https://www.facebook.com"
  {
    var page, none := "page", "";
    PageText(page, none);
    NormalizeSameSchemePath(page);
    NormalizeSameSchemePath(none);
  }

  lemma PageText(page: string, none: string)
    requires page == "page" && none == ""
    ensures '?' !in page && '#' !in page && !StartsWith(page, "/")
    ensures "https:" + page == "https:page" && "https:" + none == "https:"
    ensures DropTrailingSlash(FacebookOrigin + "/" + page) == "https://www.facebook.com/page"
    ensures DropTrailingSlash(FacebookOrigin + "/" + none) == "https://www.facebook.com"
  {
    assert !EndsWith(FacebookOrigin + "/" + page, "/");
    assert (FacebookOrigin + "/" + none)[..|FacebookOrigin|] == FacebookOrigin;
  }

  /** How `scheme ":" rest` splits at its colon. */
  lemma SchemePrefix(url: string, scheme: string, rest: string)
    requires IsScheme(scheme) && url == scheme + ":" + rest
    ensures HasScheme(url) && SchemeRun(url) == |scheme|
    ensures url[..|scheme|] == scheme && url[|scheme| + 1..] == rest
  {
    assert url == scheme + (":" + rest);
    SchemeRunOfScheme(scheme);
    SchemeRunAppend(scheme, ":" + rest);
    assert url[0] == scheme[0];
  }

  /** An absolute URL parses to its own scheme and the text after the colon. */
  lemma ResolveAbsolute(url: string, scheme: string, rest: string)
    requires HasScheme(url) && SchemeRun(url) == |scheme|
    requires url[..|scheme|] == scheme && url[|scheme| + 1..] == rest && ToLower(scheme) == scheme
    ensures Resolve(url) == var u := WithScheme(scheme, rest); if WellFormed(u) then Some(u) else None
  {
    assert SchemeOf(url) == scheme;
  }

  /** `https://` has no host: the parser refuses it and it comes back as given. */
  lemma NormalizeNoHost()
    ensures Resolve("https://").None?
    ensures NormalizePageUrl("https://") == "https://"
  {
    HttpsIsSpecial();
    SlashesOnlyMissHost();
    MissingHostRefused("https", "//");
  }

  lemma HttpsIsSpecial()
    ensures IsScheme("https") && ToLower("https") == "https" && IsSpecialScheme("https")
    ensures "https" + ":" + "//" == "https://"
  {}

  lemma SlashesOnlyMissHost()
    ensures HostMissing("//")
  {
    assert SkipSlashes("//") == [];
  }

  // ---------------------------------------------------------------------------
  // Advertiser key
  // ---------------------------------------------------------------------------

  /** `getUniqueKey(pageUrl, pageName)`. */
  function UniqueKey(pageUrl: string, pageName: string): (key: string)
    ensures StartsWith(key, NormalizePageUrl(pageUrl) + "::")
    ensures key[|NormalizePageUrl(pageUrl)| + 2..] == ToLower(Trim(pageName))
  {
    NormalizePageUrl(pageUrl) + "::" + ToLower(Trim(pageName))
  }

  /** Names that differ only in letter case or in surrounding whitespace give the
      same key. */
  lemma UniqueKeyIgnoresCaseAndPadding(pageUrl: string, pageName: string, pad: string, pad': string)
    requires AllWhitespace(pad) && AllWhitespace(pad')
    ensures UniqueKey(pageUrl, pageName) == UniqueKey(pageUrl, ToLower(pageName))
    ensures UniqueKey(pageUrl, pageName) == UniqueKey(pageUrl, pad + pageName + pad')
  {
    assert ToLower(Trim(ToLower(pageName))) == ToLower(Trim(pageName)) by {
      TrimLowerCommute(pageName);
      LowerIdempotent(Trim(pageName));
    }
    UniqueKeySameName(pageUrl, pageName, ToLower(pageName));
    TrimPadding(pageName, pad, pad');
    UniqueKeySameName(pageUrl, pageName, pad + pageName + pad');
  }

  lemma UniqueKeySameName(pageUrl: string, name: string, name': string)
    requires ToLower(Trim(name)) == ToLower(Trim(name'))
    ensures UniqueKey(pageUrl, name) == UniqueKey(pageUrl, name')
  {}

  /** For one page URL, two keys are equal exactly when the trimmed, lower-cased
      names are. */
  lemma UniqueKeySameUrl(pageUrl: string, name: string, name': string)
    ensures UniqueKey(pageUrl, name) == UniqueKey(pageUrl, name')
            <==> ToLower(Trim(name)) == ToLower(Trim(name'))
  {
    var u := NormalizePageUrl(pageUrl) + "::";
    if UniqueKey(pageUrl, name) == UniqueKey(pageUrl, name') {
      assert UniqueKey(pageUrl, name)[|u|..] == ToLower(Trim(name));
    }
  }

  // ---------------------------------------------------------------------------
  // Page link and page name of an ad card
  // ---------------------------------------------------------------------------

  predicate IsSlugChar(c: char) {
    IsAlpha(c) || IsDigit(c) || c == '_' || c == '.' || c == '-'
  }

  /** `/^\/[A-Za-z0-9_.-]+\/?$/.test(href)`. */
  predicate IsSlugPath(href: string) {
    && |href| >= 2
    && href[0] == '/'
    && var slug := if href[|href| - 1] == '/' then href[1..|href| - 1] else href[1..];
       && |slug| >= 1
       && forall i :: 0 <= i < |slug| ==> IsSlugChar(slug[i])
  }

  /** The href passes the page-link test and is not an Ads Library link. */
  predicate IsPageLink(href: string) {
    (Contains(href, "facebook.com/") || IsSlugPath(href)) && !Contains(href, "ads/library")
  }

  /** `href.startsWith('http') ? href : 'https://www.facebook.com' + href`. */
  function Absolutize(href: string): string {
    if StartsWith(href, "http") then href else FacebookOrigin + href
  }

  /** Prefixing the origin cannot create an Ads Library link. */
  lemma AbsolutizeKeepsOutAdsLibrary(href: string)
    requires !Contains(href, "ads/library")
    ensures !Contains(Absolutize(href), "ads/library")
  {
    if !StartsWith(href, "http") {
      var s := FacebookOrigin + href;
      var pat := "ads/library";
      forall i | 0 <= i <= |s| ensures !OccursAt(s, pat, i) {
        if OccursAt(s, pat, i) {
          if |FacebookOrigin| <= i {
            OccursInAppend(FacebookOrigin, href, pat, i);
          } else {
            OriginHasNoAd(href, i);
          }
        }
      }
    }
  }

  /** No occurrence of `ad` starts inside the Facebook origin. */
  lemma OriginHasNoAd(href: string, i: nat)
    requires i < |FacebookOrigin|
    ensures !OccursAt(FacebookOrigin + href, "ads/library", i)
  {
    var s := FacebookOrigin + href;
    assert forall j | 0 <= j < |FacebookOrigin| ::
      FacebookOrigin[j] != 'a' || (j + 1 < |FacebookOrigin| && FacebookOrigin[j + 1] != 'd');
    if i + 11 <= |s| {
      var w := s[i..i + 11];
      assert w[0] == FacebookOrigin[i];
      if FacebookOrigin[i] == 'a' {
        assert w[1] == FacebookOrigin[i + 1];
      }
    }
  }

  /** The page-link loop of `parseAdvertiserFromAdCard`: the first href that looks
      like a page link and is not an Ads Library link, made absolute; `None` when
      there is none. A missing `href` attribute is the empty string. */
  method SelectPageLink(hrefs: seq<string>) returns (link: Option<string>)
    ensures link.None? <==> forall i :: 0 <= i < |hrefs| ==> !IsPageLink(hrefs[i])
    ensures link.Some? ==>
      exists i :: 0 <= i < |hrefs| && IsPageLink(hrefs[i]) && link.value == Absolutize(hrefs[i])
                  && forall j :: 0 <= j < i ==> !IsPageLink(hrefs[j])
    ensures link.Some? ==> !Contains(link.value, "ads/library")
  {
    for i := 0 to |hrefs|
      invariant forall j :: 0 <= j < i ==> !IsPageLink(hrefs[j])
    {
      var href := hrefs[i];
      if Contains(href, "facebook.com/") || IsSlugPath(href) {
        if Contains(href, "ads/library") {
          continue;
        }
        AbsolutizeKeepsOutAdsLibrary(href);
        return Some(Absolutize(href));
      }
    }
    return None;
  }

  /** The page-name read: the candidate element's trimmed text, or `None` when there
      is no element or its text trims to empty (`textContent?.trim() || null`). */
  function CardPageName(textContent: Option<string>): (name: Option<string>)
    ensures name.Some? <==> textContent.Some? && Trim(textContent.value) != []
    ensures name.Some? ==> name.value == Trim(textContent.value) && Trim(name.value) == name.value
  {
    match textContent
    case None => None
    case Some(t) =>
      TrimIdempotent(t);
      if Trim(t) == [] then None else Some(Trim(t))
  }

  /** There is no page name exactly when there is no element or its text is all
      whitespace. */
  lemma CardPageNameBlank(textContent: Option<string>)
    ensures CardPageName(textContent).None? <==> textContent.None? || AllWhitespace(textContent.value)
  {
    if textContent.Some? {
      TrimEmpty(textContent.value);
    }
  }

  /** A name with non-blank ends, padded with whitespace on either side, is read
      back as exactly that name. */
  lemma CardPageNameOfPadded(pre: string, core: string, post: string)
    requires AllWhitespace(pre) && AllWhitespace(post)
    requires core != [] && !IsWhitespace(core[0]) && !IsWhitespace(core[|core| - 1])
    ensures CardPageName(Some(pre + core + post)) == Some(core)
  {
    TrimPadding(core, pre, post);
    TrimOfCore(core);
  }
}
