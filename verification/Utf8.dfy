/** Tokens as byte strings: when clipping one keeps it valid UTF-8, and what becomes of one that is
    not when the reverse entry goes through JSON. */
module Utf8 {
  import opened ByteOrder
  import opened Documents
  import opened Storage
  import opened FullText
  import opened Tokens

  predicate Continuation(c: char) { 0x80 <= c as int <= 0xBF }

  /** The second byte a lead byte of three or four allows: no overlong form, no surrogate, nothing
      above the last code point. */
  predicate SecondFits(lead: char, second: char) {
    var lo := if lead as int == 0xE0 then 0xA0 else if lead as int == 0xF0 then 0x90 else 0x80;
    var hi := if lead as int == 0xED then 0x9F else if lead as int == 0xF4 then 0x8F else 0xBF;
    lo <= second as int <= hi
  }

  /** The length of the rune a non-empty string begins with, 0 if it begins with none
      (`utf8.DecodeRune`). */
  function RuneLength(s: string): (w: nat)
    requires s != ""
    ensures w <= |s| && w <= 4
  {
    var b := s[0] as int;
    if b < 0x80 then 1
    else if 0xC2 <= b <= 0xDF && |s| >= 2 && Continuation(s[1]) then 2
    else if 0xE0 <= b <= 0xEF && |s| >= 3 && SecondFits(s[0], s[1]) && Continuation(s[2]) then 3
    else if 0xF0 <= b <= 0xF4 && |s| >= 4 && SecondFits(s[0], s[1]) && Continuation(s[2]) && Continuation(s[3]) then 4
    else 0
  }

  predicate Valid(s: string) {
    s == "" || (RuneLength(s) > 0 && Valid(s[RuneLength(s)..]))
  }

  lemma InsideARune(s: string, n: nat)
    requires s != "" && 0 < n < RuneLength(s)
    ensures Continuation(s[n]) && RuneLength(s[..n]) == 0
  {
  }

  /** Cut anywhere, a valid string stays valid if and only if the cut falls between two runes. */
  lemma {:induction false} PrefixValidIff(s: string, n: nat)
    requires Valid(s) && n <= |s|
    ensures Valid(s[..n]) <==> n == |s| || !Continuation(s[n])
    decreases |s|
  {
    if n == |s| {
      assert s[..n] == s;
    } else if n > 0 {
      var w := RuneLength(s);
      if n < w {
        InsideARune(s, n);
      } else {
        PrefixValidIff(s[w..], n - w);
        assert s[..n][w..] == s[w..][..n - w];
        assert RuneLength(s[..n]) == w;
        assert n - w < |s[w..]| ==> s[w..][n - w] == s[n];
      }
    }
  }

  /** A token is valid if and only if its word, in lower case, is no longer than 64 bytes or has no
      rune across that mark. */
  lemma TokenValidIff(x: Lexer, word: string)
    requires Valid(x.lower(word))
    ensures var low := x.lower(word);
            Valid(TokenOf(x, word)) <==> |low| <= MAX_TOKEN_BYTES || !Continuation(low[MAX_TOKEN_BYTES])
  {
    var low := x.lower(word);
    if |low| > MAX_TOKEN_BYTES { PrefixValidIff(low, MAX_TOKEN_BYTES); }
  }

  // ---------------------------------------------------------------- through JSON

  /** The replacement character, in UTF-8. */
  const REPLACEMENT: string := [0xEF as char, 0xBF as char, 0xBD as char]

  /** A string that was marshalled and unmarshalled: every byte that begins no rune is replaced. */
  function ThroughJson(s: string): string {
    if s == "" then ""
    else if RuneLength(s) == 0 then REPLACEMENT + ThroughJson(s[1..])
    else s[..RuneLength(s)] + ThroughJson(s[RuneLength(s)..])
  }

  lemma RuneInFront(r: string, rest: string)
    requires r != "" && RuneLength(r) == |r|
    ensures RuneLength(r + rest) == |r| && (r + rest)[|r|..] == rest
  {
  }

  lemma {:induction false} JsonTextIsValid(s: string)
    ensures Valid(ThroughJson(s))
  {
    if s != "" {
      var w := RuneLength(s);
      if w == 0 {
        JsonTextIsValid(s[1..]);
        RuneInFront(REPLACEMENT, ThroughJson(s[1..]));
      } else {
        JsonTextIsValid(s[w..]);
        assert RuneLength(s[..w]) == w;
        RuneInFront(s[..w], ThroughJson(s[w..]));
      }
    }
  }

  /** JSON returns a string as it was if and only if it is valid. */
  lemma {:induction false} JsonIsLosslessIff(s: string)
    ensures ThroughJson(s) == s <==> Valid(s)
  {
    JsonTextIsValid(s);
    if Valid(s) && s != "" {
      var w := RuneLength(s);
      JsonIsLosslessIff(s[w..]);
      assert s == s[..w] + s[w..];
    }
  }

  /** The document's tokens are posted, and its reverse entry is what JSON returns of them. */
  ghost predicate IndexedThroughJson(t: Fts, c: Collection, id: Id, tokens: set<Token>) {
    && (forall w :: Posting(c, w, id) in t.forward <==> w in tokens)
    && DocKey(c, id) in t.reverse && t.reverse[DocKey(c, id)] == set w | w in tokens :: ThroughJson(w)
  }

  /** Unindexing takes every posting of the document out if and only if all its tokens are valid:
      a token cut inside a rune is left behind. */
  lemma UnindexLeavesNothingIffValid(t: Fts, c: Collection, id: Id, tokens: set<Token>)
    requires IndexedThroughJson(t, c, id, tokens)
    ensures (forall w :: Posting(c, w, id) !in UnindexText(t, c, id).forward) <==> forall w | w in tokens :: Valid(w)
  {
    var after := UnindexText(t, c, id).forward;
    forall w | w in tokens ensures Posting(c, w, id) !in after <==> Valid(w) {
      JsonIsLosslessIff(w);
      if Posting(c, w, id) !in after {
        var v :| v in tokens && ThroughJson(v) == w;
        JsonTextIsValid(v);
      }
    }
  }
}
