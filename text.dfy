/**
 * String operations the dispatcher relies on: `normalizeText` (trim, then
 * lower-case), substring tests, the two regular expressions the source uses,
 * and the un-escaping of the action-list attribute.
 */
module Text {

  // ---------------------------------------------------------------------------
  // normalizeText
  // ---------------------------------------------------------------------------

  /** The code points JavaScript's `String.prototype.trim` removes: WhiteSpace and LineTerminator. */
  predicate IsWhitespace(c: char) {
    c == '\t' || c == '\n' || c == '\U{000B}' || c == '\U{000C}' || c == '\r' || c == ' ' ||
    c == '\U{00A0}' || c == '\U{1680}' || ('\U{2000}' <= c <= '\U{200A}') ||
    c == '\U{2028}' || c == '\U{2029}' || c == '\U{202F}' || c == '\U{205F}' ||
    c == '\U{3000}' || c == '\U{FEFF}'
  }

  /** The index of the first non-whitespace character of `s` at or after `from` (or `|s|`). */
  function SkipLeading(s: string, from: nat): (k: nat)
    requires from <= |s|
    ensures from <= k <= |s|
    ensures forall i :: from <= i < k ==> IsWhitespace(s[i])
    ensures k < |s| ==> !IsWhitespace(s[k])
    decreases |s| - from
  {
    if from < |s| && IsWhitespace(s[from]) then SkipLeading(s, from + 1) else from
  }

  /** The end of `s[lo..hi]` once its trailing whitespace is dropped. */
  function SkipTrailing(s: string, lo: nat, hi: nat): (k: nat)
    requires lo <= hi <= |s|
    ensures lo <= k <= hi
    ensures forall i :: k <= i < hi ==> IsWhitespace(s[i])
    ensures lo < k ==> !IsWhitespace(s[k - 1])
    decreases hi
  {
    if lo < hi && IsWhitespace(s[hi - 1]) then SkipTrailing(s, lo, hi - 1) else hi
  }

  /** `String.prototype.trim`. */
  function Trim(s: string): string {
    var a := SkipLeading(s, 0);
    var b := SkipTrailing(s, a, |s|);
    s[a..b]
  }

  /**
   * Trim returns the slice of `s` left once the whitespace before and after
   * it is cut off, and that slice neither starts nor ends with whitespace.
   */
  lemma TrimCutsWhitespace(s: string)
    ensures exists a, b :: (0 <= a <= b <= |s| && Trim(s) == s[a..b] &&
      (forall i :: 0 <= i < a ==> IsWhitespace(s[i])) &&
      (forall i :: b <= i < |s| ==> IsWhitespace(s[i])))
    ensures Trim(s) != [] ==> !IsWhitespace(Trim(s)[0]) && !IsWhitespace(Trim(s)[|Trim(s)| - 1])
  {
    var a := SkipLeading(s, 0);
    var b := SkipTrailing(s, a, |s|);
    assert Trim(s) == s[a..b];
  }

  /** `toLowerCase` on one character; only the ASCII letters are mapped. */
  function LowerChar(c: char): char {
    if 'A' <= c <= 'Z' then (c as int + 32) as char else c
  }

  /** `String.prototype.toLowerCase`, restricted to ASCII letters. */
  function Lower(s: string): string {
    if s == [] then [] else [LowerChar(s[0])] + Lower(s[1..])
  }

  /** Lower-casing keeps the length and maps each character on its own. */
  lemma {:induction false} LowerPointwise(s: string)
    ensures |Lower(s)| == |s|
    ensures forall i :: 0 <= i < |s| ==> Lower(s)[i] == LowerChar(s[i])
  {
    if s != [] {
      LowerPointwise(s[1..]);
    }
  }

  /** `normalizeText`: trim, then lower-case. */
  function Normalize(s: string): string {
    Lower(Trim(s))
  }

  lemma LowerKeepsWhitespace(c: char)
    ensures IsWhitespace(LowerChar(c)) <==> IsWhitespace(c)
  {
  }

  /** A string that neither starts nor ends with whitespace is its own trim. */
  lemma {:induction false} TrimOfTrimmed(s: string)
    requires s != [] ==> !IsWhitespace(s[0]) && !IsWhitespace(s[|s| - 1])
    ensures Trim(s) == s
  {
    assert SkipLeading(s, 0) == 0;
    assert SkipTrailing(s, 0, |s|) == |s|;
  }

  /** Normalising twice is normalising once: the guards may be applied to already-normalised text. */
  lemma {:induction false} NormalizeIdempotent(s: string)
    ensures Normalize(Normalize(s)) == Normalize(s)
  {
    var t := Trim(s);
    var n := Lower(t);
    TrimCutsWhitespace(s);
    LowerPointwise(t);
    LowerPointwise(n);
    if n != [] {
      LowerKeepsWhitespace(t[0]);
      LowerKeepsWhitespace(t[|t| - 1]);
    }
    TrimOfTrimmed(n);
    assert Lower(n) == n by {
      forall i | 0 <= i < |n| ensures Lower(n)[i] == n[i] {
        assert LowerChar(LowerChar(t[i])) == LowerChar(t[i]);
      }
    }
  }

  // ---------------------------------------------------------------------------
  // Substring tests and the two regular expressions
  // ---------------------------------------------------------------------------

  /** `s` occurs in `p` starting at index `i`. */
  predicate OccursAt(p: string, s: string, i: int) {
    0 <= i && i + |s| <= |p| && p[i..i + |s|] == s
  }

  /** `String.prototype.includes`. */
  predicate Contains(p: string, s: string) {
    exists i | 0 <= i <= |p| - |s| :: OccursAt(p, s, i)
  }

  /** `\w` of a JavaScript regular expression without the `u` flag. */
  predicate IsWordChar(c: char) {
    'a' <= c <= 'z' || 'A' <= c <= 'Z' || '0' <= c <= '9' || c == '_'
  }

  /**
   * The test of `/lit\b/` for a literal `lit` ending in a word character:
   * `lit` occurs and is followed by the end of the text or a non-word character.
   */
  predicate ContainsWord(p: string, lit: string) {
    exists i | 0 <= i <= |p| - |lit| :: OccursAt(p, lit, i) && (i + |lit| == |p| || !IsWordChar(p[i + |lit|]))
  }

  /** `\d` of a JavaScript regular expression without the `u` flag. */
  predicate IsDigit(c: char) {
    '0' <= c <= '9'
  }

  const WorkOrders: string := "/work_orders/"

  /** The job-page route test `/\/work_orders\/\d+/` on `location.pathname` (unanchored). */
  predicate IsJobPath(path: string) {
    exists i | 0 <= i < |path| - |WorkOrders| :: OccursAt(path, WorkOrders, i) && i + |WorkOrders| < |path| && IsDigit(path[i + |WorkOrders|])
  }

  /** The route test is unanchored: text around a job path keeps it a job path. */
  lemma JobPathUnanchored(path: string, before: string, after: string)
    requires IsJobPath(path)
    ensures IsJobPath(before + path + after)
  {
    var i :| 0 <= i < |path| - |WorkOrders| && OccursAt(path, WorkOrders, i) &&
      i + |WorkOrders| < |path| && IsDigit(path[i + |WorkOrders|]);
    var q := before + path + after;
    var j := |before| + i;
    assert q[j..j + |WorkOrders|] == path[i..i + |WorkOrders|];
    assert q[j + |WorkOrders|] == path[i + |WorkOrders|];
    assert OccursAt(q, WorkOrders, j) && j < |q| - |WorkOrders|;
  }

  // ---------------------------------------------------------------------------
  // Un-escaping the action-list attribute
  // ---------------------------------------------------------------------------

  /**
   * `s.replace(/pat/g, rep)` for a literal pattern: a left-to-right scan
   * replacing non-overlapping occurrences.
   */
  function ReplaceAll(s: string, pat: string, rep: string): string
    requires pat != []
    decreases |s|
  {
    if |pat| <= |s| && s[..|pat|] == pat then rep + ReplaceAll(s[|pat|..], pat, rep)
    else if s == [] then []
    else [s[0]] + ReplaceAll(s[1..], pat, rep)
  }

  /** Text in which the pattern does not occur comes out of the replace unchanged. */
  lemma {:induction false} ReplaceAllNoMatch(s: string, pat: string, rep: string)
    requires pat != []
    requires forall i :: !OccursAt(s, pat, i)
    ensures ReplaceAll(s, pat, rep) == s
    decreases |s|
  {
    assert !OccursAt(s, pat, 0);
    if s != [] {
      forall i ensures !OccursAt(s[1..], pat, i) {
        if OccursAt(s[1..], pat, i) {
          assert s[i + 1..i + 1 + |pat|] == s[1..][i..i + |pat|];
          assert OccursAt(s, pat, i + 1);
        }
      }
      ReplaceAllNoMatch(s[1..], pat, rep);
      assert [s[0]] + s[1..] == s;
    }
  }

  const Quot: string := "&quot;"
  const Amp: string := "&amp;"

  /** The attribute un-escaping of the action lists: `&quot;` first, then `&amp;`. */
  function Unescape(s: string): string {
    ReplaceAll(ReplaceAll(s, Quot, "\""), Amp, "&")
  }

  /** The escaping that writes `&` as `&amp;` and `"` as `&quot;`. */
  function EscapeChar(c: char): string {
    if c == '&' then Amp else if c == '"' then Quot else [c]
  }

  function Escape(s: string): string {
    if s == [] then [] else EscapeChar(s[0]) + Escape(s[1..])
  }

  /** The intermediate form: only `&` escaped. */
  function EscapeAmp(s: string): string {
    if s == [] then [] else (if s[0] == '&' then Amp else [s[0]]) + EscapeAmp(s[1..])
  }

  /** Text without `&` passes through a scan for a pattern that starts with `&`. */
  lemma {:induction false} ReplaceAllSkips(p: string, x: string, pat: string, rep: string)
    requires pat != [] && pat[0] == '&'
    requires '&' !in p
    ensures ReplaceAll(p + x, pat, rep) == p + ReplaceAll(x, pat, rep)
    decreases |p|
  {
    if p != [] {
      var s := p + x;
      assert s[0] == p[0] && p[0] != '&';
      assert !(|pat| <= |s| && s[..|pat|] == pat);
      assert s[1..] == p[1..] + x;
      assert '&' !in p[1..];
      assert ReplaceAll(s, pat, rep) == [s[0]] + ReplaceAll(s[1..], pat, rep);
      ReplaceAllSkips(p[1..], x, pat, rep);
      assert [p[0]] + (p[1..] + ReplaceAll(x, pat, rep)) == p + ReplaceAll(x, pat, rep);
    } else {
      assert p + x == x;
    }
  }

  /** One replacement step at the front of the text. */
  lemma ReplaceAllFront(x: string, pat: string, rep: string)
    requires pat != []
    ensures ReplaceAll(pat + x, pat, rep) == rep + ReplaceAll(x, pat, rep)
  {
    var s := pat + x;
    assert s[..|pat|] == pat;
    assert s[|pat|..] == x;
  }

  /** Where the pattern does not start, the scan copies one character and moves on. */
  lemma ReplaceAllMiss(s: string, pat: string, rep: string)
    requires pat != [] && s != [] && !(|pat| <= |s| && s[..|pat|] == pat)
    ensures ReplaceAll(s, pat, rep) == [s[0]] + ReplaceAll(s[1..], pat, rep)
  {
  }

  /** `&amp;` is not `&quot;`: past its `&`, the scan for `&quot;` copies it. */
  lemma AmpPassesQuotScan(x: string)
    ensures ReplaceAll(Amp + x, Quot, "\"") == Amp + ReplaceAll(x, Quot, "\"")
  {
    var s := Amp + x;
    var tail := "amp;";
    assert Amp == ['&'] + tail;
    assert !(|Quot| <= |s| && s[..|Quot|] == Quot) by {
      if |Quot| <= |s| {
        assert s[..|Quot|][1] == 'a' != Quot[1];
      }
    }
    ReplaceAllMiss(s, Quot, "\"");
    assert s[1..] == tail + x;
    ReplaceAllSkips(tail, x, Quot, "\"");
  }

  lemma {:induction false} QuotPassRestoresQuotes(s: string)
    ensures ReplaceAll(Escape(s), Quot, "\"") == EscapeAmp(s)
  {
    if s != [] {
      var c, t := s[0], s[1..];
      assert Escape(s) == EscapeChar(c) + Escape(t);
      QuotPassRestoresQuotes(t);
      if c == '&' {
        AmpPassesQuotScan(Escape(t));
      } else if c == '"' {
        ReplaceAllFront(Escape(t), Quot, "\"");
      } else {
        ReplaceAllSkips([c], Escape(t), Quot, "\"");
      }
    }
  }

  lemma {:induction false} AmpPassRestoresAmpersands(s: string)
    ensures ReplaceAll(EscapeAmp(s), Amp, "&") == s
  {
    if s != [] {
      var c, t := s[0], s[1..];
      AmpPassRestoresAmpersands(t);
      if c == '&' {
        ReplaceAllFront(EscapeAmp(t), Amp, "&");
      } else {
        ReplaceAllSkips([c], EscapeAmp(t), Amp, "&");
      }
      assert [c] + t == s;
    }
  }

  /** Replacing `&quot;` first and `&amp;` second undoes the escaping exactly. */
  lemma {:induction false} UnescapeInvertsEscape(s: string)
    ensures Unescape(Escape(s)) == s
  {
    QuotPassRestoresQuotes(s);
    AmpPassRestoresAmpersands(s);
  }

  /** Text with neither `&` nor `"` is its own escape. */
  lemma {:induction false} EscapePlain(s: string)
    requires '&' !in s && '"' !in s
    ensures Escape(s) == s
  {
    if s != [] {
      assert '&' !in s[1..] && '"' !in s[1..];
      EscapePlain(s[1..]);
      assert [s[0]] + s[1..] == s;
    }
  }

  /** The other order would not: an escaped literal `&quot;` would come back as `"`. */
  lemma AmpFirstWouldNotInvert()
    ensures ReplaceAll(ReplaceAll(Escape(Quot), Amp, "&"), Quot, "\"") != Quot
  {
    var tail := "quot;";
    assert Quot == ['&'] + tail;
    EscapePlain(tail);
    assert Escape(Quot) == Amp + tail;
    ReplaceAllFront(tail, Amp, "&");
    ReplaceAllSkips(tail, "", Amp, "&");
    assert tail + "" == tail;
    assert ReplaceAll(Escape(Quot), Amp, "&") == Quot;
    ReplaceAllFront("", Quot, "\"");
    assert Quot + "" == Quot;
  }
}
