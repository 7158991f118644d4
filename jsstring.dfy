/** The JavaScript string built-ins the scraper relies on (`trim`, `toLowerCase`,
    `includes`, `startsWith`, `endsWith`, `replace(/,/g, '')`), on `seq<char>`. */
module JsString {

  /** JavaScript's WhiteSpace and LineTerminator code points, the set `trim` removes
      and `parseInt`/`parseFloat` skip. */
  predicate IsWhitespace(c: char) {
    c == '\t' || c == '\n' || c == '\U{000B}' || c == '\U{000C}' || c == '\r' || c == ' '
    || c == '\U{00A0}' || c == '\U{1680}' || ('\U{2000}' <= c <= '\U{200A}')
    || c == '\U{2028}' || c == '\U{2029}' || c == '\U{202F}' || c == '\U{205F}'
    || c == '\U{3000}' || c == '\U{FEFF}'
  }

  predicate IsUpper(c: char) { 'A' <= c <= 'Z' }

  predicate IsDigit(c: char) { '0' <= c <= '9' }

  function LowerChar(c: char): (r: char)
    ensures IsUpper(c) ==> r as int == c as int + 32
    ensures !IsUpper(c) ==> r == c
    ensures !IsUpper(r)
  {
    if IsUpper(c) then (c as int + 32) as char else c
  }

  /** `s.toLowerCase()`, on the ASCII letters. */
  function ToLower(s: string): (r: string)
    ensures |r| == |s|
    ensures forall i :: 0 <= i < |s| ==> r[i] == LowerChar(s[i])
  {
    if s == [] then [] else [LowerChar(s[0])] + ToLower(s[1..])
  }

  /** `s.trimStart()`. */
  function TrimStart(s: string): (r: string)
    ensures |r| <= |s| && r == s[|s| - |r|..]
    ensures r == [] || !IsWhitespace(r[0])
  {
    if s != [] && IsWhitespace(s[0]) then TrimStart(s[1..]) else s
  }

  /** `s.trimEnd()`. */
  function TrimEnd(s: string): (r: string)
    ensures |r| <= |s| && r == s[..|r|]
    ensures r == [] || !IsWhitespace(r[|r| - 1])
  {
    if s != [] && IsWhitespace(s[|s| - 1]) then TrimEnd(s[..|s| - 1]) else s
  }

  /** `s.trim()`. */
  function Trim(s: string): (r: string)
    ensures r == [] || (!IsWhitespace(r[0]) && !IsWhitespace(r[|r| - 1]))
  {
    TrimEnd(TrimStart(s))
  }

  /** `s.startsWith(p)`. */
  predicate StartsWith(s: string, p: string) {
    |p| <= |s| && s[..|p|] == p
  }

  /** `s.endsWith(p)`. */
  predicate EndsWith(s: string, p: string) {
    |p| <= |s| && s[|s| - |p|..] == p
  }

  predicate OccursAt(s: string, pat: string, i: nat) {
    i + |pat| <= |s| && s[i..i + |pat|] == pat
  }

  /** `s.includes(pat)`, also JavaScript's `/pat/.test(s)` for a literal pattern. */
  predicate Contains(s: string, pat: string) {
    exists i | 0 <= i <= |s| :: OccursAt(s, pat, i)
  }

  /** `s.replace(/,/g, '')`. */
  function RemoveCommas(s: string): (r: string)
    ensures ',' !in r
    ensures |r| <= |s|
  {
    if s == [] then [] else (if s[0] == ',' then [] else [s[0]]) + RemoveCommas(s[1..])
  }

  /** `RemoveCommas` keeps every character other than a comma. */
  lemma {:induction false} RemoveCommasKeeps(s: string, c: char)
    ensures c in RemoveCommas(s) <==> c in s && c != ','
  {
    if s != [] {
      RemoveCommasKeeps(s[1..], c);
      assert s == [s[0]] + s[1..];
    }
  }

  lemma {:induction false} LowerIdempotent(s: string)
    ensures ToLower(ToLower(s)) == ToLower(s)
  {
    if s != [] {
      LowerIdempotent(s[1..]);
    }
  }

  lemma {:induction false} RemoveCommasIdempotent(s: string)
    ensures RemoveCommas(RemoveCommas(s)) == RemoveCommas(s)
  {
    if s != [] {
      RemoveCommasIdempotent(s[1..]);
      var head := if s[0] == ',' then [] else [s[0]];
      RemoveCommasAppend(head, RemoveCommas(s[1..]));
    }
  }

  lemma {:induction false} RemoveCommasAppend(a: string, b: string)
    ensures RemoveCommas(a + b) == RemoveCommas(a) + RemoveCommas(b)
  {
    if a == [] {
      assert a + b == b;
    } else {
      var head := if a[0] == ',' then [] else [a[0]];
      assert (a + b)[0] == a[0] && (a + b)[1..] == a[1..] + b;
      RemoveCommasAppend(a[1..], b);
      assert RemoveCommas(a + b) == head + RemoveCommas(a[1..] + b);
      assert RemoveCommas(a) == head + RemoveCommas(a[1..]);
      AppendAssoc(head, RemoveCommas(a[1..]), RemoveCommas(b));
    }
  }

  lemma AppendAssoc(x: string, y: string, z: string)
    ensures x + (y + z) == (x + y) + z
  {}

  /** Lower-casing never creates or removes a comma, so the two rewrites commute. */
  lemma {:induction false} LowerRemoveCommasCommute(s: string)
    ensures RemoveCommas(ToLower(s)) == ToLower(RemoveCommas(s))
  {
    if s != [] {
      LowerRemoveCommasCommute(s[1..]);
      var head := if s[0] == ',' then [] else [s[0]];
      assert ToLower(s)[1..] == ToLower(s[1..]);
      LowerAppend(head, RemoveCommas(s[1..]));
    }
  }

  lemma {:induction false} LowerAppend(a: string, b: string)
    ensures ToLower(a + b) == ToLower(a) + ToLower(b)
  {
    if a == [] {
      assert a + b == b;
    } else {
      assert (a + b)[1..] == a[1..] + b;
      LowerAppend(a[1..], b);
    }
  }

  /** Lower-casing maps whitespace to whitespace and nothing else to whitespace,
      so trimming and lower-casing commute. */
  lemma {:induction false} LowerTrimStartCommute(s: string)
    ensures TrimStart(ToLower(s)) == ToLower(TrimStart(s))
  {
    if s != [] {
      assert ToLower(s)[1..] == ToLower(s[1..]);
      LowerKeepsWhitespace(s[0]);
      LowerTrimStartCommute(s[1..]);
    }
  }

  lemma LowerKeepsWhitespace(c: char)
    ensures IsWhitespace(LowerChar(c)) <==> IsWhitespace(c)
  {
    if IsUpper(c) {
      assert 'a' <= LowerChar(c) <= 'z';
    }
  }

  lemma {:induction false} LowerTrimEndCommute(s: string)
    ensures TrimEnd(ToLower(s)) == ToLower(TrimEnd(s))
  {
    if s != [] {
      var n := |s| - 1;
      assert s == s[..n] + [s[n]];
      LowerAppend(s[..n], [s[n]]);
      assert ToLower(s)[..n] == ToLower(s[..n]);
      LowerKeepsWhitespace(s[n]);
      LowerTrimEndCommute(s[..n]);
    }
  }

  lemma TrimLowerCommute(s: string)
    ensures Trim(ToLower(s)) == ToLower(Trim(s))
  {
    LowerTrimStartCommute(s);
    LowerTrimEndCommute(TrimStart(s));
  }

  lemma TrimIdempotent(s: string)
    ensures Trim(Trim(s)) == Trim(s)
  {
    var r := Trim(s);
    assert TrimStart(r) == r;
    assert TrimEnd(r) == r;
  }

  predicate AllWhitespace(s: string) {
    forall i :: 0 <= i < |s| ==> IsWhitespace(s[i])
  }

  /** `trimStart` of a concatenation: the left part vanishes only when it is all
      whitespace, and then the right part is trimmed instead. */
  lemma {:induction false} TrimStartAppend(a: string, b: string)
    ensures TrimStart(a + b) == if TrimStart(a) == [] then TrimStart(b) else TrimStart(a) + b
  {
    if a == [] {
      assert a + b == b;
    } else if IsWhitespace(a[0]) {
      assert (a + b)[1..] == a[1..] + b;
      TrimStartAppend(a[1..], b);
    }
  }

  /** `trimEnd` of a concatenation, the mirror image of `TrimStartAppend`. */
  lemma {:induction false} TrimEndAppend(a: string, b: string)
    ensures TrimEnd(a + b) == if TrimEnd(b) == [] then TrimEnd(a) else a + TrimEnd(b)
  {
    if b == [] {
      assert a + b == a;
    } else if IsWhitespace(b[|b| - 1]) {
      assert (a + b)[..|a + b| - 1] == a + b[..|b| - 1];
      TrimEndAppend(a, b[..|b| - 1]);
    }
  }

  lemma TrimAllWhitespace(s: string)
    requires AllWhitespace(s)
    ensures TrimStart(s) == [] && TrimEnd(s) == []
  {}

  /** `trim` leaves nothing exactly when the whole text is whitespace. */
  lemma TrimEmpty(s: string)
    ensures Trim(s) == [] <==> AllWhitespace(s)
  {
    if Trim(s) == [] {
      TrimBlank(s);
    }
    if AllWhitespace(s) {
      TrimAllWhitespace(s);
    }
  }

  lemma TrimBlank(s: string)
    requires Trim(s) == []
    ensures AllWhitespace(s)
  {
    var x := TrimStart(s);
    TrimStartDrops(s);
    TrimEndDrops(x);
    WhitespaceJoin(s, |s| - |x|, x);
  }

  lemma WhitespaceJoin(s: string, i: nat, x: string)
    requires i <= |s| && x == s[i..] && AllWhitespace(s[..i]) && AllWhitespace(x[0..])
    ensures AllWhitespace(s)
  {
    assert forall k :: i <= k < |s| ==> s[k] == x[k - i];
  }

  /** A text with non-blank ends is its own trim. */
  lemma TrimOfCore(core: string)
    requires core == [] || (!IsWhitespace(core[0]) && !IsWhitespace(core[|core| - 1]))
    ensures Trim(core) == core
  {}

  /** What `trimStart` drops is whitespace. */
  lemma {:induction false} TrimStartDrops(s: string)
    ensures AllWhitespace(s[..|s| - |TrimStart(s)|])
  {
    if s != [] && IsWhitespace(s[0]) {
      TrimStartDrops(s[1..]);
      var k := |s| - |TrimStart(s)|;
      assert s[..k] == [s[0]] + s[1..][..k - 1];
    }
  }

  /** What `trimEnd` drops is whitespace. */
  lemma {:induction false} TrimEndDrops(s: string)
    ensures AllWhitespace(s[|TrimEnd(s)|..])
  {
    if s != [] && IsWhitespace(s[|s| - 1]) {
      var y := s[..|s| - 1];
      TrimEndDrops(y);
      assert s[|TrimEnd(s)|..] == y[|TrimEnd(y)|..] + [s[|s| - 1]];
    }
  }

  /** Surrounding whitespace makes no difference to `trim`. */
  lemma TrimPadding(s: string, pad: string, pad': string)
    requires AllWhitespace(pad) && AllWhitespace(pad')
    ensures Trim(pad + s + pad') == Trim(s)
  {
    var y := pad + s + pad';
    var x := s + pad';
    assert y == pad + x;
    TrimStartPadded(pad, x);
    assert TrimStart(y) == TrimStart(x);
    TrimTrailingPad(s, pad');
    assert Trim(y) == TrimEnd(TrimStart(x));
  }

  lemma TrimStartPadded(pad: string, s: string)
    requires AllWhitespace(pad)
    ensures TrimStart(pad + s) == TrimStart(s)
  {
    TrimAllWhitespace(pad);
    TrimStartAppend(pad, s);
  }

  lemma TrimTrailingPad(s: string, pad: string)
    requires AllWhitespace(pad)
    ensures TrimEnd(TrimStart(s + pad)) == TrimEnd(TrimStart(s))
  {
    TrimAllWhitespace(pad);
    TrimStartAppend(s, pad);
    var t := TrimStart(s);
    if t != [] {
      TrimEndAppend(t, pad);
    }
  }

  /** An occurrence of `pat` in `a + b` lies in `a`, in `b`, or across the seam. */
  lemma OccursInAppend(a: string, b: string, pat: string, i: nat)
    requires OccursAt(a + b, pat, i)
    requires |a| <= i
    ensures OccursAt(b, pat, i - |a|)
  {
    assert (a + b)[i..i + |pat|] == b[i - |a|..i - |a| + |pat|];
  }
}
