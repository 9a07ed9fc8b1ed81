/** The text of content tags and of precondition headers: how `matchETags` reads an If-Match
    list (section 13.1.1 of RFC 9110), and that it decides what `Documents.Matches` says. */
module ETagHeader {
  import opened ByteOrder
  import opened Documents
  import opened Keys

  const HASH_LENGTH: nat := 64

  predicate Hex(c: char) { '0' <= c <= '9' || 'a' <= c <= 'f' || 'A' <= c <= 'F' }

  predicate Space(c: char) { c == ' ' || c == '\t' || c == '\n' || c == '\r' || c == 11 as char || c == 12 as char }

  predicate IsHash(s: string) { |s| == HASH_LENGTH && forall i | 0 <= i < |s| :: Hex(s[i]) }

  /** `strings.TrimSpace`. */
  function Trim(s: string): string {
    if s != "" && Space(s[0]) then Trim(s[1..])
    else if s != "" && Space(s[|s| - 1]) then Trim(s[..|s| - 1])
    else s
  }

  /** `strings.TrimPrefix`. */
  function TrimPrefix(s: string, prefix: string): string {
    if prefix <= s then s[|prefix|..] else s
  }

  function Unquote(s: string): string {
    if |s| >= 2 && s[0] == '"' && s[|s| - 1] == '"' then s[1..|s| - 1] else s
  }

  function ParseETagHash(value: string): Option<string> {
    var v := Unquote(TrimPrefix(TrimPrefix(Trim(value), "W/"), "w/"));
    if IsHash(v) then Some(Lower(v)) else None
  }

  /** `computeETag`, around the hexadecimal digest. */
  function Quoted(digits: string): string { "\"" + digits + "\"" }

  /** The ways to write a tag with the given digits: bare or quoted, weak or not. */
  predicate Spells(text: string, digits: string) {
    exists weak, bare | weak in {"", "W/", "w/", "W/w/"} && bare in {digits, Quoted(digits)} :: text == weak + bare
  }

  // ---------------------------------------------------------------- what a tag text means

  lemma FirstDiffers(prefix: string, s: string)
    requires prefix != "" && s != "" && prefix[0] != s[0]
    ensures !(prefix <= s)
  {
  }

  lemma UnprefixedStays(digits: string, bare: string)
    requires IsHash(digits) && (bare == digits || bare == Quoted(digits))
    ensures !("W/" <= bare) && !("w/" <= bare) && Unquote(bare) == digits
  {
    assert Hex(digits[0]) && bare[0] != 'W' && bare[0] != 'w';
    FirstDiffers("W/", bare);
    FirstDiffers("w/", bare);
    assert Quoted(digits)[1..|digits| + 1] == digits;
  }

  lemma PrefixComesOff(prefix: string, rest: string)
    ensures TrimPrefix(prefix + rest, prefix) == rest
  {
  }

  lemma PrefixBack(s: string, prefix: string)
    ensures TrimPrefix(s, prefix) == s || s == prefix + TrimPrefix(s, prefix)
  {
  }

  lemma PrefixesComeOff(weak: string, bare: string)
    requires weak in {"", "W/", "w/", "W/w/"} && !("W/" <= bare) && !("w/" <= bare)
    ensures TrimPrefix(TrimPrefix(weak + bare, "W/"), "w/") == bare
  {
    if weak == "" {
      assert weak + bare == bare;
    } else if weak == "W/" {
      PrefixComesOff("W/", bare);
    } else if weak == "w/" {
      FirstDiffers("W/", weak + bare);
      PrefixComesOff("w/", bare);
    } else {
      assert weak + bare == "W/" + ("w/" + bare);
      PrefixComesOff("W/", "w/" + bare);
      PrefixComesOff("w/", bare);
    }
  }

  lemma WritesParse(text: string, digits: string)
    requires IsHash(digits) && Spells(text, digits)
    ensures Unquote(TrimPrefix(TrimPrefix(text, "W/"), "w/")) == digits
  {
    var weak, bare :| weak in {"", "W/", "w/", "W/w/"} && bare in {digits, Quoted(digits)} && text == weak + bare;
    UnprefixedStays(digits, bare);
    PrefixesComeOff(weak, bare);
  }

  lemma ParseWrites(text: string, digits: string)
    requires IsHash(digits) && Unquote(TrimPrefix(TrimPrefix(text, "W/"), "w/")) == digits
    ensures Spells(text, digits)
  {
    var once := TrimPrefix(text, "W/");
    var bare := TrimPrefix(once, "w/");
    PrefixBack(text, "W/");
    PrefixBack(once, "w/");
    assert bare == digits || bare == Quoted(digits);
    if text != once && once != bare { assert text == "W/w/" + bare; }
    else if text != once { assert text == "W/" + bare; }
    else if once != bare { assert text == "w/" + bare; }
    else { assert text == "" + bare; }
  }

  /** A token is read as a hash exactly when, spaces aside, it writes that hash in some case. */
  lemma ParsesExactlyTheWritings(value: string, hash: string)
    ensures ParseETagHash(value) == Some(hash)
       <==> exists digits :: IsHash(digits) && Lower(digits) == hash && Spells(Trim(value), digits)
  {
    if ParseETagHash(value) == Some(hash) {
      ParseWrites(Trim(value), Unquote(TrimPrefix(TrimPrefix(Trim(value), "W/"), "w/")));
    }
    forall digits | IsHash(digits) && Lower(digits) == hash && Spells(Trim(value), digits)
      ensures ParseETagHash(value) == Some(hash)
    {
      WritesParse(Trim(value), digits);
    }
  }

  predicate IsDigest(s: string) { IsHash(s) && Lower(s) == s }

  /** The engine reads back the tags it hands out. */
  lemma OwnTagRoundTrip(digest: string)
    requires IsDigest(digest)
    ensures ParseETagHash(Quoted(digest)) == Some(digest)
  {
    assert Trim(Quoted(digest)) == Quoted(digest);
    assert Quoted(digest) == "" + Quoted(digest);
    assert Spells(Quoted(digest), digest);
    ParsesExactlyTheWritings(Quoted(digest), digest);
  }

  // ---------------------------------------------------------------- the list

  /** `strings.Split(s, ",")`. */
  function Split(s: string): (r: seq<string>)
    ensures |r| >= 1
  {
    if s == "" then [""]
    else
      var rest := Split(s[1..]);
      if s[0] == ',' then [""] + rest else [[s[0]] + rest[0]] + rest[1..]
  }

  function Join(tokens: seq<string>): string
    requires tokens != []
  {
    if |tokens| == 1 then tokens[0] else tokens[0] + "," + Join(tokens[1..])
  }

  lemma {:induction false} SplitToken(t: string, rest: string)
    requires ',' !in t
    ensures Split(t) == [t]
    ensures Split(t + "," + rest) == [t] + Split(rest)
  {
    if t == "" {
      assert "" + "," + rest == "," + rest && ("," + rest)[1..] == rest;
    } else {
      SplitToken(t[1..], rest);
      assert (t + "," + rest)[1..] == t[1..] + "," + rest;
      assert [t[0]] + t[1..] == t;
    }
  }

  lemma {:induction false} SplitUndoesJoin(tokens: seq<string>)
    requires tokens != [] && forall t | t in tokens :: ',' !in t
    ensures Split(Join(tokens)) == tokens
  {
    if |tokens| == 1 {
      SplitToken(tokens[0], "");
    } else {
      SplitUndoesJoin(tokens[1..]);
      SplitToken(tokens[0], Join(tokens[1..]));
    }
  }

  lemma {:induction false} JoinUndoesSplit(s: string)
    ensures Join(Split(s)) == s
    ensures forall t | t in Split(s) :: ',' !in t
  {
    if s != "" {
      JoinUndoesSplit(s[1..]);
      var rest := Split(s[1..]);
      if s[0] == ',' {
        assert ([""] + rest)[1..] == rest;
      } else if |rest| > 1 {
        var tokens := [[s[0]] + rest[0]] + rest[1..];
        assert tokens[1..] == rest[1..];
      }
    }
  }

  predicate TokenMatches(hash: string, token: string) {
    Trim(token) == "*" || ParseETagHash(Trim(token)) == Some(hash)
  }

  method TestToken(hash: string, token: string) returns (ok: bool)
    ensures ok == TokenMatches(hash, token)
  {
    var trimmed := Trim(token);
    if trimmed == "*" { return true; }
    var expectedHash := ParseETagHash(trimmed);
    return expectedHash.Some? && hash == expectedHash.value;
  }

  predicate AnyMatches(hash: string, tokens: seq<string>) {
    exists t | t in tokens :: TokenMatches(hash, t)
  }

  method MatchETags(computed: string, expected: string) returns (ok: bool)
    ensures ok <==> ParseETagHash(computed).Some? && AnyMatches(ParseETagHash(computed).value, Split(expected))
  {
    var computedHash := ParseETagHash(computed);
    if computedHash.None? { return false; }
    ok := TestTokens(computedHash.value, Split(expected));
  }

  method TestTokens(hash: string, tokens: seq<string>) returns (ok: bool)
    ensures ok <==> AnyMatches(hash, tokens)
  {
    for i := 0 to |tokens|
      invariant forall j | 0 <= j < i :: !TokenMatches(hash, tokens[j])
    {
      var hit := TestToken(hash, tokens[i]);
      if hit { return true; }
    }
    return false;
  }

  // ---------------------------------------------------------------- the header as an Expected

  /** The contents have digests, and no two of them the same one. */
  ghost predicate TellsApart(digest: Doc -> string, contents: set<Doc>) {
    && (forall d | d in contents :: IsDigest(digest(d)))
    && (forall d, e | d in contents && e in contents && digest(d) == digest(e) :: d == e)
  }

  /** What a header text stands for, among the contents that may be stored. */
  ghost predicate Denotes(digest: Doc -> string, contents: set<Doc>, header: string, expected: Expected) {
    match expected
    case Unconditional => header == ""
    case Star => header == "*"
    case Tags(tags) =>
      && header != "" && header != "*" && |tags| == |Split(header)|
      && forall i | 0 <= i < |tags| :: TagOf(digest, contents, Split(header)[i], tags[i])
  }

  /** A piece names the content that has its hash; a hash that none of them has names nothing. */
  ghost predicate TagOf(digest: Doc -> string, contents: set<Doc>, token: string, tag: Tag) {
    match tag
    case AnyTag => Trim(token) == "*"
    case Exactly(e) => Trim(token) != "*" && e.content in contents && ParseETagHash(Trim(token)) == Some(digest(e.content))
    case BadTag => Trim(token) != "*" && forall d | d in contents :: ParseETagHash(Trim(token)) != Some(digest(d))
  }

  lemma TagDecides(digest: Doc -> string, contents: set<Doc>, token: string, tag: Tag, current: Doc)
    requires TellsApart(digest, contents) && current in contents && TagOf(digest, contents, token, tag)
    ensures TokenMatches(digest(current), token) <==> tag == AnyTag || tag == Exactly(ComputeETag(current))
  {
  }

  lemma StarMatches(hash: string)
    ensures AnyMatches(hash, Split("*"))
  {
    SplitToken("*", "");
    assert "*" in Split("*") && TokenMatches(hash, "*");
  }

  /** With a digest that tells the contents apart, the text the engine reads decides exactly what the
      model's preconditions say. */
  lemma HeaderMeansMatches(digest: Doc -> string, contents: set<Doc>, header: string, expected: Expected, current: Doc)
    requires TellsApart(digest, contents) && current in contents
    requires Denotes(digest, contents, header, expected) && expected != Unconditional
    ensures AnyMatches(digest(current), Split(header)) <==> Matches(current, expected)
  {
    match expected
    case Star => StarMatches(digest(current));
    case Tags(tags) =>
      forall i | 0 <= i < |tags|
        ensures TokenMatches(digest(current), Split(header)[i]) <==> tags[i] == AnyTag || tags[i] == Exactly(ComputeETag(current))
      {
        TagDecides(digest, contents, Split(header)[i], tags[i], current);
      }
      SomeOfBoth(digest(current), Split(header), tags, current);
  }

  lemma SomeOfBoth(hash: string, tokens: seq<string>, tags: seq<Tag>, current: Doc)
    requires |tokens| == |tags|
    requires forall i | 0 <= i < |tags| :: TokenMatches(hash, tokens[i]) <==> tags[i] == AnyTag || tags[i] == Exactly(ComputeETag(current))
    ensures AnyMatches(hash, tokens) <==> Matches(current, Tags(tags))
  {
    if t :| t in tokens && TokenMatches(hash, t) {
      var i :| 0 <= i < |tokens| && tokens[i] == t;
      assert tags[i] in tags;
    }
    if Matches(current, Tags(tags)) {
      var i :| 0 <= i < |tags| && (tags[i] == AnyTag || tags[i] == Exactly(ComputeETag(current)));
      assert tokens[i] in tokens;
    }
  }

  /** Every header denotes some precondition. */
  lemma EveryHeaderDenotes(digest: Doc -> string, contents: set<Doc>, header: string) returns (expected: Expected)
    ensures Denotes(digest, contents, header, expected)
  {
    if header == "" { return Unconditional; }
    if header == "*" { return Star; }
    var tokens := Split(header);
    var tags: seq<Tag> := [];
    while |tags| < |tokens|
      invariant |tags| <= |tokens|
      invariant forall i | 0 <= i < |tags| :: TagOf(digest, contents, tokens[i], tags[i])
    {
      var token := tokens[|tags|];
      ghost var tag := BadTag;
      if Trim(token) == "*" { tag := AnyTag; }
      else if d :| d in contents && ParseETagHash(Trim(token)) == Some(digest(d)) { tag := Exactly(ETag(d)); }
      assert TagOf(digest, contents, token, tag);
      tags := tags + [tag];
    }
    return Tags(tags);
  }

  lemma DigestHasNoComma(digest: string)
    requires IsDigest(digest)
    ensures ',' !in Quoted(digest)
  {
    forall i | 0 <= i < |Quoted(digest)| ensures Quoted(digest)[i] != ',' {
      if 0 < i <= HASH_LENGTH { assert Quoted(digest)[i] == digest[i - 1] && Hex(digest[i - 1]); }
    }
  }

  /** A client that sends back the tag of what it has seen meets exactly the contents of that digest.
      So the header says what the model's guard says of the two if and only if they do not share a
      digest while they differ. */
  lemma OwnTagGuardsUnlessDigestsCollide(digest: Doc -> string, seen: Doc, current: Doc)
    requires IsDigest(digest(seen)) && IsDigest(digest(current))
    ensures AnyMatches(digest(current), Split(Quoted(digest(seen)))) <==> digest(seen) == digest(current)
    ensures (AnyMatches(digest(current), Split(Quoted(digest(seen)))) <==> Matches(current, Tags([Exactly(ComputeETag(seen))])))
       <==> (digest(seen) == digest(current) ==> seen == current)
  {
    var text := Quoted(digest(seen));
    DigestHasNoComma(digest(seen));
    SplitToken(text, "");
    OwnTagRoundTrip(digest(seen));
    assert Trim(text) == text && text in Split(text);
    assert Exactly(ComputeETag(seen)) in [Exactly(ComputeETag(seen))];
  }

  // ---------------------------------------------------------------- how many contents can be told apart

  predicate LowerDigit(c: char) { '0' <= c <= '9' || 'a' <= c <= 'f' }

  predicate LowerHex(s: string) { forall i | 0 <= i < |s| :: LowerDigit(s[i]) }

  lemma DigestIsLowerHex(s: string)
    ensures IsDigest(s) <==> |s| == HASH_LENGTH && LowerHex(s)
  {
    if IsDigest(s) {
      forall i | 0 <= i < |s| ensures LowerDigit(s[i]) { assert Hex(s[i]) && s[i] == LowerChar(s[i]); }
    }
    if |s| == HASH_LENGTH && LowerHex(s) {
      assert forall i | 0 <= i < |s| :: LowerDigit(s[i]) && Hex(s[i]) && LowerChar(s[i]) == s[i];
      assert Lower(s) == s;
    }
  }

  function Pow16(k: nat): (p: nat)
    ensures p > 0
  {
    if k == 0 then 1 else 16 * Pow16(k - 1)
  }

  function Digit(v: nat): (c: char)
    requires v < 16
    ensures LowerDigit(c) && ValueOf(c) == v
  {
    if v < 10 then ('0' as int + v) as char else ('a' as int + v - 10) as char
  }

  function ValueOf(c: char): (v: nat)
    requires LowerDigit(c)
    ensures v < 16
  {
    if c <= '9' then c as int - '0' as int else c as int - 'a' as int + 10
  }

  /** The number, in so many hexadecimal digits. */
  function Digits(n: nat, len: nat): (s: string)
    ensures |s| == len && LowerHex(s)
  {
    if len == 0 then "" else Digits(n / 16, len - 1) + [Digit(n % 16)]
  }

  lemma {:induction false} DigitsDiffer(n: nat, m: nat, len: nat)
    requires n < Pow16(len) && m < Pow16(len)
    ensures Digits(n, len) == Digits(m, len) ==> n == m
  {
    if len > 0 && Digits(n, len) == Digits(m, len) {
      var a, b := Digits(n / 16, len - 1), Digits(m / 16, len - 1);
      assert a == Digits(n, len)[..len - 1] && b == Digits(m, len)[..len - 1];
      DigitsDiffer(n / 16, m / 16, len - 1);
      assert Digit(n % 16) == Digits(n, len)[len - 1] == Digit(m % 16);
    }
  }

  /** The number a lower-case hexadecimal text writes. */
  function Number(s: string): (n: nat)
    requires LowerHex(s)
    ensures n < Pow16(|s|)
  {
    if s == "" then 0 else 16 * Number(s[..|s| - 1]) + ValueOf(s[|s| - 1])
  }

  lemma LastDigit(q: nat, v: nat)
    requires v < 16
    ensures (16 * q + v) / 16 == q && (16 * q + v) % 16 == v
  {
  }

  lemma {:induction false} NumbersDiffer(s: string, t: string)
    requires LowerHex(s) && LowerHex(t) && |s| == |t| && Number(s) == Number(t)
    ensures s == t
  {
    if s != "" {
      var front, last := s[..|s| - 1], s[|s| - 1];
      var front', last' := t[..|t| - 1], t[|t| - 1];
      LastDigit(Number(front), ValueOf(last));
      LastDigit(Number(front'), ValueOf(last'));
      NumbersDiffer(front, front');
      assert s == front + [last] && t == front' + [last'];
    }
  }

  /** The contents, numbered. */
  lemma {:induction false} Numbering(contents: set<Doc>) returns (rank: map<Doc, nat>)
    ensures rank.Keys == contents
    ensures forall d | d in contents :: rank[d] < |contents|
    ensures forall d, e | d in contents && e in contents && rank[d] == rank[e] :: d == e
    decreases |contents|
  {
    rank := map[];
    if contents != {} {
      var d :| d in contents;
      rank := Numbering(contents - {d});
      rank := rank[d := |contents| - 1];
    }
  }

  lemma {:induction false} AtMostSoMany(contents: set<Doc>, number: Doc -> nat, bound: nat)
    requires forall d | d in contents :: number(d) < bound
    requires forall d, e | d in contents && e in contents && number(d) == number(e) :: d == e
    ensures |contents| <= bound
    decreases bound
  {
    if bound == 0 {
      assert contents == {};
    } else if d :| d in contents && number(d) == bound - 1 {
      AtMostSoMany(contents - {d}, number, bound - 1);
    } else {
      AtMostSoMany(contents, number, bound - 1);
    }
  }

  lemma TellingApart(contents: set<Doc>) returns (digest: Doc -> string)
    requires |contents| <= Pow16(HASH_LENGTH)
    ensures TellsApart(digest, contents)
  {
    var rank := Numbering(contents);
    digest := d => if d in rank then Digits(rank[d], HASH_LENGTH) else "";
    forall d | d in contents ensures IsDigest(digest(d)) { DigestIsLowerHex(digest(d)); }
    forall d, e | d in contents && e in contents && digest(d) == digest(e) ensures d == e {
      DigitsDiffer(rank[d], rank[e], HASH_LENGTH);
    }
  }

  lemma ToldApartAreFew(digest: Doc -> string, contents: set<Doc>)
    requires TellsApart(digest, contents)
    ensures |contents| <= Pow16(HASH_LENGTH)
  {
    var number := (d: Doc) => if LowerHex(digest(d)) then Number(digest(d)) else 0;
    forall d | d in contents ensures number(d) < Pow16(HASH_LENGTH) { DigestIsLowerHex(digest(d)); }
    forall d, e | d in contents && e in contents && number(d) == number(e) ensures d == e {
      DigestIsLowerHex(digest(d));
      DigestIsLowerHex(digest(e));
      NumbersDiffer(digest(d), digest(e));
    }
    AtMostSoMany(contents, number, Pow16(HASH_LENGTH));
  }

  /** Some digest tells the contents apart if and only if there are at most 16^64 of them. */
  lemma CanBeToldApartIff(contents: set<Doc>)
    ensures (exists digest: Doc -> string :: TellsApart(digest, contents)) <==> |contents| <= Pow16(HASH_LENGTH)
  {
    if |contents| <= Pow16(HASH_LENGTH) {
      var digest := TellingApart(contents);
    } else if digest: Doc -> string :| TellsApart(digest, contents) {
      ToldApartAreFew(digest, contents);
    }
  }
}
