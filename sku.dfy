/** remix/app/utils/sku.ts: product SKUs carry an optional "SP-" marker in
    front of the maker's code, and the short form of a code is its letters
    and the number after them: the short form of "118abc-00123" is
    "abc-00123". */
module Sku {
  import opened Strings

  const SpPrefix: string := "SP-"

  /** `sku.replace(/^SP-/, '')`: at most one leading marker is removed. */
  function StripSKU(sku: string): (r: string)
    ensures StartsWith(sku, SpPrefix) ==> sku == SpPrefix + r
    ensures !StartsWith(sku, SpPrefix) ==> r == sku
  {
    if StartsWith(sku, SpPrefix) then
      assert sku == sku[..3] + sku[3..];
      sku[3..]
    else sku
  }

  /** The end of the run of characters satisfying the class, from `i`. */
  function DigitRunEnd(s: string, i: nat): (e: nat)
    requires i <= |s|
    ensures i <= e <= |s|
    ensures forall k :: i <= k < e ==> IsDigit(s[k])
    ensures e < |s| ==> !IsDigit(s[e])
    decreases |s| - i
  {
    if i < |s| && IsDigit(s[i]) then DigitRunEnd(s, i + 1) else i
  }

  function LetterRunEnd(s: string, i: nat): (e: nat)
    requires i <= |s|
    ensures i <= e <= |s|
    ensures forall k :: i <= k < e ==> IsLetter(s[k])
    ensures e < |s| ==> !IsLetter(s[e])
    decreases |s| - i
  {
    if i < |s| && IsLetter(s[i]) then LetterRunEnd(s, i + 1) else i
  }

  /** The match of `/\d+([a-z]+)-(\d+)/i` tried at `p`: `\d+` takes every
      digit from `p`, `[a-z]+` every letter after them (either case, as the
      `i` flag allows), then a '-' and every digit after it; giving back
      characters cannot help, since the next class never accepts them.
      The indices `(a, b, c)`: the letters are `s[a..b]`, the '-' is at `b`
      and the digits are `s[b + 1..c]`. */
  function MatchAt(s: string, p: nat): (m: Option<(nat, nat, nat)>)
    requires p <= |s|
    ensures m.Some? ==> p < m.value.0 < m.value.1 && m.value.1 + 1 < m.value.2 <= |s|
  {
    if p < |s| && IsDigit(s[p]) then
      var a := DigitRunEnd(s, p);
      var b := LetterRunEnd(s, a);
      if a < b && b < |s| && s[b] == '-' && DigitRunEnd(s, b + 1) > b + 1 then
        Some((a, b, DigitRunEnd(s, b + 1)))
      else None
    else None
  }

  /** The leftmost match starting at `p` or later. */
  function MatchFrom(s: string, p: nat): (m: Option<(nat, nat, nat)>)
    requires p <= |s|
    ensures m.Some? ==> p < m.value.0 < m.value.1 && m.value.1 + 1 < m.value.2 <= |s|
    decreases |s| - p
  {
    if p == |s| then None
    else match MatchAt(s, p)
      case Some(m) => Some(m)
      case None => MatchFrom(s, p + 1)
  }

  /** `shortSKU(sku)`: the captured letters and digits joined by '-', or ""
      when the stripped code has no match. */
  function ShortSKU(sku: string): string {
    var code := StripSKU(sku);
    match MatchFrom(code, 0)
    case Some((a, b, c)) => code[a..b] + "-" + code[b + 1..c]
    case None => ""
  }

  /** At index `i` of `s` there is a digit, then the letters `l`, a '-' and
      the digits `d`: a substring of the form `\d+[a-z]+-\d+`. */
  predicate PatternAt(s: string, i: nat, l: string, d: string) {
    && i < |s| && IsDigit(s[i])
    && l != [] && AllLetters(l) && d != [] && AllDigits(d)
    && OccursAt(s, l + "-" + d, i + 1)
  }

  // ---------------------------------------------------------------------------
  // Properties

  /** Exactly one leading "SP-" is removed; a code without it is kept. */
  lemma StripExactlyOne(s: string)
    ensures StripSKU(SpPrefix + s) == s
    ensures !StartsWith(s, SpPrefix) ==> StripSKU(s) == s
  {
    assert (SpPrefix + s)[..3] == SpPrefix;
  }

  /** The short form looks only at the stripped code, so a marked SKU and
      its code without the marker have the same short form. */
  lemma ShortIgnoresMarker(s: string)
    requires !StartsWith(s, SpPrefix)
    ensures ShortSKU(SpPrefix + s) == ShortSKU(s)
  {
    StripExactlyOne(s);
  }

  /** `(a, b, c)` delimits a pattern substring whose digit run after the
      '-' is taken whole: letters `s[a..b]`, '-' at `b`, digits
      `s[b + 1..c]`. */
  predicate WholeMatch(s: string, m: (nat, nat, nat)) {
    && 0 < m.0 <= m.1 < m.2 <= |s|
    && PatternAt(s, m.0 - 1, s[m.0..m.1], s[m.1 + 1..m.2])
    && (m.2 == |s| || !IsDigit(s[m.2]))
  }

  /** A match at `p` describes the digits before it, the letters, the '-'
      and the digits after it, each run taken whole. */
  lemma MatchAtSound(s: string, p: nat)
    requires p <= |s| && MatchAt(s, p).Some?
    ensures WholeMatch(s, MatchAt(s, p).value)
    ensures forall k :: p <= k < MatchAt(s, p).value.0 ==> IsDigit(s[k])
    ensures MatchAt(s, p).value.0 == |s| || !IsDigit(s[MatchAt(s, p).value.0])
  {
    var (a, b, c) := MatchAt(s, p).value;
    var l, d := s[a..b], s[b + 1..c];
    assert s[a..c] == l + "-" + d;
  }

  /** A letter run followed by '-' ends exactly at the '-'. */
  lemma PatternRuns(s: string, i: nat, l: string, d: string)
    requires PatternAt(s, i, l, d)
    ensures DigitRunEnd(s, i) == i + 1
    ensures LetterRunEnd(s, i + 1) == i + 1 + |l|
    ensures DigitRunEnd(s, i + 2 + |l|) >= i + 2 + |l| + |d|
  {
    var w := s[i + 1..i + 1 + |l| + 1 + |d|];
    assert w == l + "-" + d;
    assert s[i + 1] == w[0] == l[0];
    assert IsLetter(s[i + 1]);
    DigitRunTo(s, i, i + 1);
    LetterRunTo(s, i + 1, i + 1 + |l|);
    forall k | i + 2 + |l| <= k < i + 2 + |l| + |d| ensures IsDigit(s[k]) {
      assert s[k] == w[k - i - 1] == d[k - i - 2 - |l|];
    }
    DigitRunAtLeast(s, i + 2 + |l|, i + 2 + |l| + |d|);
  }

  lemma {:induction false} DigitRunTo(s: string, i: nat, e: nat)
    requires i <= e <= |s|
    requires forall k :: i <= k < e ==> IsDigit(s[k])
    requires e == |s| || !IsDigit(s[e])
    ensures DigitRunEnd(s, i) == e
    decreases e - i
  {
    if i < e { DigitRunTo(s, i + 1, e); }
  }

  lemma {:induction false} LetterRunTo(s: string, i: nat, e: nat)
    requires i <= e <= |s|
    requires forall k :: i <= k < e ==> IsLetter(s[k])
    requires e == |s| || !IsLetter(s[e])
    ensures LetterRunEnd(s, i) == e
    decreases e - i
  {
    if i < e { LetterRunTo(s, i + 1, e); }
  }

  lemma {:induction false} DigitRunAtLeast(s: string, i: nat, e: nat)
    requires i <= e <= |s|
    requires forall k :: i <= k < e ==> IsDigit(s[k])
    ensures DigitRunEnd(s, i) >= e
    decreases e - i
  {
    if i < e { DigitRunAtLeast(s, i + 1, e); }
  }

  /** A substring of the pattern at `i` means the search from any earlier
      start succeeds, and its letters begin no later than those at `i`. */
  lemma {:induction false} FoundBy(s: string, p: nat, i: nat, l: string, d: string)
    requires p <= i && PatternAt(s, i, l, d)
    ensures MatchFrom(s, p).Some? && MatchFrom(s, p).value.0 <= i + 1
    decreases i - p
  {
    var w := s[i + 1..i + 2 + |l| + |d|];
    assert w == l + "-" + d;
    assert IsLetter(s[i + 1]) by { assert s[i + 1] == w[0] == l[0]; }
    if p < i && MatchAt(s, p).None? {
      assert MatchFrom(s, p) == MatchFrom(s, p + 1);
      FoundBy(s, p + 1, i, l, d);
    } else if p == i {
      PatternRuns(s, i, l, d);
      assert s[i + 1 + |l|] == w[|l|] == '-';
    }
  }

  /** The search from the start fails exactly when the code holds no
      substring of the form digits, letters, '-', digits. */
  lemma NoMatchIffNoPattern(code: string)
    ensures MatchFrom(code, 0).None? <==> forall i: nat, l, d :: !PatternAt(code, i, l, d)
  {
    if MatchFrom(code, 0).Some? {
      MatchFromSound(code, 0);
      var (a, b, c) := MatchFrom(code, 0).value;
      assert PatternAt(code, a - 1, code[a..b], code[b + 1..c]);
    } else {
      forall i: nat, l, d ensures !PatternAt(code, i, l, d) {
        if PatternAt(code, i, l, d) { FoundBy(code, 0, i, l, d); }
      }
    }
  }

  /** The short form is empty exactly when the stripped code holds no
      substring of the form digits, letters, '-', digits. */
  lemma ShortEmptyIffNoPattern(sku: string)
    ensures ShortSKU(sku) == "" <==>
      forall i: nat, l, d :: !PatternAt(StripSKU(sku), i, l, d)
  {
    NoMatchIffNoPattern(StripSKU(sku));
  }

  /** The letters `l` at index `a` of `code`, a '-' and the digits `d` form
      the leftmost pattern substring, with its whole letter run and the
      whole digit run after the '-'. */
  ghost predicate LeftmostPattern(code: string, a: nat, l: string, d: string) {
    && 0 < a && PatternAt(code, a - 1, l, d)
    && (a + |l| + 1 + |d| == |code| || !IsDigit(code[a + |l| + 1 + |d|]))
    && forall i: nat, l', d' :: PatternAt(code, i, l', d') ==> a <= i + 1
  }

  /** The leftmost search from the start finds the leftmost pattern. */
  lemma MatchIsLeftmost(code: string)
    requires MatchFrom(code, 0).Some?
    ensures var (a, b, c) := MatchFrom(code, 0).value;
      LeftmostPattern(code, a, code[a..b], code[b + 1..c])
  {
    MatchFromSound(code, 0);
    var (a, b, c) := MatchFrom(code, 0).value;
    forall i: nat, l', d' | PatternAt(code, i, l', d') ensures a <= i + 1 {
      FoundBy(code, 0, i, l', d');
    }
  }

  /** A non-empty short form joins the letters and digits of the match. */
  lemma ShortOfMatch(sku: string)
    requires ShortSKU(sku) != ""
    ensures var code := StripSKU(sku);
      && MatchFrom(code, 0).Some?
      && var (a, b, c) := MatchFrom(code, 0).value;
         ShortSKU(sku) == code[a..b] + "-" + code[b + 1..c]
  {
  }

  /** A non-empty short form is `L + "-" + D`, taken from the leftmost
      pattern substring of the stripped code. */
  lemma ShortForm(sku: string)
    requires ShortSKU(sku) != ""
    ensures exists a: nat, l, d :: LeftmostPattern(StripSKU(sku), a, l, d) && ShortSKU(sku) == l + "-" + d
  {
    var code := StripSKU(sku);
    ShortOfMatch(sku);
    MatchIsLeftmost(code);
    var m := MatchFrom(code, 0).value;
    var l, d := code[m.0..m.1], code[m.1 + 1..m.2];
    assert LeftmostPattern(code, m.0, l, d) && ShortSKU(sku) == l + "-" + d;
  }

  /** What the leftmost search returns is the match at some start. */
  lemma {:induction false} MatchFromStart(s: string, p: nat) returns (q: nat)
    requires p <= |s| && MatchFrom(s, p).Some?
    ensures p <= q <= |s| && MatchAt(s, q) == MatchFrom(s, p)
    decreases |s| - p
  {
    if MatchAt(s, p).Some? {
      q := p;
    } else {
      q := MatchFromStart(s, p + 1);
    }
  }

  /** So it describes the letters, the '-' and the whole digit run. */
  lemma MatchFromSound(s: string, p: nat)
    requires p <= |s| && MatchFrom(s, p).Some?
    ensures WholeMatch(s, MatchFrom(s, p).value)
  {
    var q := MatchFromStart(s, p);
    MatchAtSound(s, q);
  }
}
