/** `tokenizeLimited` and `extractText`, over a word splitter and a lower-casing function
    standing for Go's strings and unicode packages. */
module Tokens {
  import opened ByteOrder
  import opened Documents

  datatype Lexer = Lexer(split: string -> seq<string>, lower: string -> string)

  const MAX_TEXT_BYTES := 256 * 1024
  const MAX_TOKENS_PER_DOC := 2048
  const MAX_QUERY_TOKENS := 16
  const MAX_TOKEN_BYTES := 64

  function Clip(s: string, n: nat): (r: string)
    ensures |r| <= n && r <= s
  {
    if |s| > n then s[..n] else s
  }

  function TokenOf(x: Lexer, word: string): Token {
    Clip(x.lower(word), MAX_TOKEN_BYTES)
  }

  /** The tokens of all words longer than one byte. */
  function AllTokens(x: Lexer, words: seq<string>): set<Token> {
    set w | w in words && |w| > 1 :: TokenOf(x, w)
  }

  /** The shortest prefix of the words whose tokens reach the cap, or all of them. */
  function Considered(x: Lexer, words: seq<string>, max: nat): seq<string> {
    if words == [] || |AllTokens(x, words[..|words| - 1])| < max then words
    else Considered(x, words[..|words| - 1], max)
  }

  function Tokenize(x: Lexer, text: string, max: nat): set<Token> {
    AllTokens(x, Considered(x, x.split(Clip(text, MAX_TEXT_BYTES)), max))
  }

  lemma {:induction false} ConsideredBelowCap(x: Lexer, words: seq<string>, i: nat, max: nat)
    requires 0 < i <= |words| && |AllTokens(x, words[..i])| >= max > |AllTokens(x, words[..i - 1])|
    ensures Considered(x, words, max) == words[..i]
    decreases |words|
  {
    if i < |words| {
      var shorter := words[..|words| - 1];
      assert words[..i] == shorter[..i];
      assert words[..i - 1] == shorter[..i - 1];
      AllTokensGrow(x, words, i, |words| - 1);
      ConsideredBelowCap(x, shorter, i, max);
    } else {
      assert words[..i] == words;
    }
  }

  lemma ConsideredAt(x: Lexer, words: seq<string>, i: nat, max: nat)
    requires 0 < max && i <= |words|
    requires i > 0 ==> |AllTokens(x, words[..i - 1])| < max
    requires i == |words| || |AllTokens(x, words[..i])| >= max
    ensures Considered(x, words, max) == words[..i]
  {
    assert words[..|words|] == words;
    if i == 0 {
      assert AllTokens(x, words[..0]) == {};
    } else if |AllTokens(x, words[..i])| >= max {
      ConsideredBelowCap(x, words, i, max);
    }
  }

  lemma AllTokensGrow(x: Lexer, words: seq<string>, i: nat, j: nat)
    requires i <= j <= |words|
    ensures AllTokens(x, words[..i]) <= AllTokens(x, words[..j])
    ensures |AllTokens(x, words[..i])| <= |AllTokens(x, words[..j])|
  {
    assert forall w | w in words[..i] :: w in words[..j];
    SubsetCardinality(AllTokens(x, words[..i]), AllTokens(x, words[..j]));
  }

  lemma OneMoreWord(x: Lexer, words: seq<string>, i: nat)
    requires i < |words|
    ensures AllTokens(x, words[..i + 1]) ==
            AllTokens(x, words[..i]) + (if |words[i]| > 1 then {TokenOf(x, words[i])} else {})
  {
    assert words[..i + 1] == words[..i] + [words[i]];
  }

  /** `tokenizeLimited`. */
  method TokenizeLimited(x: Lexer, text: string, max: nat) returns (tokens: set<Token>)
    requires max > 0
    ensures tokens == Tokenize(x, text, max)
    ensures |tokens| <= max
  {
    var words := x.split(Clip(text, MAX_TEXT_BYTES));
    tokens := {};
    var i := 0;
    while i < |words| && |tokens| < max
      invariant 0 <= i <= |words|
      invariant tokens == AllTokens(x, words[..i]) && |tokens| <= max
      invariant i > 0 ==> |AllTokens(x, words[..i - 1])| < max
    {
      OneMoreWord(x, words, i);
      if |words[i]| > 1 {
        tokens := tokens + {TokenOf(x, words[i])};
      }
      i := i + 1;
    }
    ConsideredAt(x, words, i, max);
  }

  /** Below the cap a text's tokens are those of all its words. */
  lemma {:induction false} TokenizeBelowCap(x: Lexer, text: string, max: nat)
    requires |Tokenize(x, text, max)| < max
    ensures Tokenize(x, text, max) == AllTokens(x, x.split(Clip(text, MAX_TEXT_BYTES)))
  {
    ConsideredAllOrFull(x, x.split(Clip(text, MAX_TEXT_BYTES)), max);
  }

  lemma {:induction false} ConsideredAllOrFull(x: Lexer, words: seq<string>, max: nat)
    ensures Considered(x, words, max) == words || |AllTokens(x, Considered(x, words, max))| >= max
  {
    if words != [] && |AllTokens(x, words[..|words| - 1])| >= max {
      ConsideredAllOrFull(x, words[..|words| - 1], max);
    }
  }

  /** `extractText`: each configured string field, followed by a space. */
  function Text(d: Doc, fields: seq<Field>): string {
    if fields == [] then ""
    else Text(d, fields[..|fields| - 1]) + FieldText(d, fields[|fields| - 1])
  }

  function FieldText(d: Doc, f: Field): string {
    if f in d && d[f].Str? then d[f].s + " " else ""
  }

  method ExtractText(d: Doc, fields: seq<Field>) returns (text: string)
    ensures text == Text(d, fields)
  {
    text := "";
    for i := 0 to |fields|
      invariant text == Text(d, fields[..i])
    {
      assert fields[..i + 1][..i] == fields[..i];
      text := text + FieldText(d, fields[i]);
    }
    assert fields[..|fields|] == fields;
  }

  /** A text's tokens: its words longer than one byte, in lower case and cut at 64 bytes, of the first
      262144 bytes of the text; all of them as long as they stay below the cap. */
  lemma TokensAreClippedWords(x: Lexer, text: string, max: nat, t: Token)
    ensures t in Tokenize(x, text, max) ==> IsClippedWord(x, text, t)
    ensures |Tokenize(x, text, max)| < max ==> (t in Tokenize(x, text, max) <==> IsClippedWord(x, text, t))
  {
    var words := x.split(Clip(text, MAX_TEXT_BYTES));
    ConsideredIsPrefix(x, words, max);
    if |Tokenize(x, text, max)| < max { TokenizeBelowCap(x, text, max); }
  }

  predicate IsClippedWord(x: Lexer, text: string, t: Token) {
    exists w | w in x.split(if |text| > 262144 then text[..262144] else text) ::
      |w| > 1 && t == if |x.lower(w)| > 64 then x.lower(w)[..64] else x.lower(w)
  }

  lemma {:induction false} ConsideredIsPrefix(x: Lexer, words: seq<string>, max: nat)
    ensures Considered(x, words, max) <= words
  {
    if words != [] && |AllTokens(x, words[..|words| - 1])| >= max { ConsideredIsPrefix(x, words[..|words| - 1], max); }
  }

  /** The text of a document is that of its configured fields one after the other: of a field that
      holds a string the string and a space, of any other nothing. */
  lemma TextOfFields(d: Doc, first: seq<Field>, second: seq<Field>, f: Field)
    ensures Text(d, []) == ""
    ensures Text(d, [f]) == if f in d && d[f].Str? then d[f].s + " " else ""
    ensures Text(d, first + second) == Text(d, first) + Text(d, second)
  {
    assert [f][..0] == [] && Text(d, [f]) == Text(d, []) + FieldText(d, f);
    TextConcatenates(d, first, second);
  }

  lemma {:induction false} TextConcatenates(d: Doc, first: seq<Field>, second: seq<Field>)
    ensures Text(d, first + second) == Text(d, first) + Text(d, second)
    decreases |second|
  {
    if second == [] {
      assert first + second == first && Text(d, first) + "" == Text(d, first);
    } else {
      var front, f := second[..|second| - 1], second[|second| - 1];
      TextConcatenates(d, first, front);
      assert second == front + [f];
      AppendIsAssociative(first, front, [f]);
      TextAppend(d, first + front, f);
      TextAppend(d, front, f);
      AppendIsAssociative(Text(d, first), Text(d, front), FieldText(d, f));
    }
  }

  lemma AppendIsAssociative<T>(a: seq<T>, b: seq<T>, c: seq<T>)
    ensures (a + b) + c == a + (b + c)
  {
  }

  lemma TextAppend(d: Doc, fields: seq<Field>, f: Field)
    ensures Text(d, fields + [f]) == Text(d, fields) + FieldText(d, f)
  {
    assert (fields + [f])[..|fields|] == fields;
  }

  /** The tokens the engine runs with. */
  function StandardRules(x: Lexer, accepts: (Collection, Doc) -> bool): Rules {
    Rules(
      (d, fields) => Tokenize(x, Text(d, fields), MAX_TOKENS_PER_DOC),
      query => Tokenize(x, query, MAX_QUERY_TOKENS),
      accepts
    )
  }

  lemma {:induction false} ConsideredWithinCap(x: Lexer, words: seq<string>, max: nat)
    requires max > 0
    ensures |AllTokens(x, Considered(x, words, max))| <= max
  {
    if words == [] {
      assert AllTokens(x, words) == {};
    } else if |AllTokens(x, words[..|words| - 1])| < max {
      OneMoreWord(x, words, |words| - 1);
      assert words[..|words|] == words;
    } else {
      ConsideredWithinCap(x, words[..|words| - 1], max);
    }
  }

  /** With the engine's own rules a document has at most 2048 tokens and a query at most 16, clipped
      words of the configured text and of the query; and all of them as long as they stay below that. */
  lemma StandardTokens(x: Lexer, accepts: (Collection, Doc) -> bool, d: Doc, fields: seq<Field>, query: string, t: Token)
    ensures var r := StandardRules(x, accepts);
            && |r.docTokens(d, fields)| <= 2048 && |r.queryTokens(query)| <= 16
            && (t in r.docTokens(d, fields) ==> IsClippedWord(x, Text(d, fields), t))
            && (t in r.queryTokens(query) ==> IsClippedWord(x, query, t))
            && (|r.docTokens(d, fields)| < 2048 && IsClippedWord(x, Text(d, fields), t) ==> t in r.docTokens(d, fields))
            && (|r.queryTokens(query)| < 16 && IsClippedWord(x, query, t) ==> t in r.queryTokens(query))
            && r.accepts == accepts
  {
    ConsideredWithinCap(x, x.split(Clip(Text(d, fields), MAX_TEXT_BYTES)), MAX_TOKENS_PER_DOC);
    ConsideredWithinCap(x, x.split(Clip(query, MAX_TEXT_BYTES)), MAX_QUERY_TOKENS);
    TokensAreClippedWords(x, Text(d, fields), MAX_TOKENS_PER_DOC, t);
    TokensAreClippedWords(x, query, MAX_QUERY_TOKENS, t);
  }
}
