/** The composite bucket keys and bucket names: big-endian numbers, TTL keys,
    full-text keys and secondary-index bucket names. */
module Keys {
  import opened ByteOrder

  const NUL: char := '\0'

  function Byte(n: nat): (c: char)
    requires n < 256
    ensures c as int == n
  {
    n as char
  }

  function Pow256(k: nat): (p: nat)
    ensures p >= 1
  {
    if k == 0 then 1 else 256 * Pow256(k - 1)
  }

  /** The low `k` bytes of `v`, most significant first (`binary.BigEndian.PutUint64` for k = 8). */
  function BigEndian(v: nat, k: nat): (s: string)
    ensures |s| == k
  {
    if k == 0 then "" else BigEndian(v / 256, k - 1) + [Byte(v % 256)]
  }

  /** `binary.BigEndian.Uint64`. */
  function FromBigEndian(s: string): nat {
    if s == "" then 0 else FromBigEndian(s[..|s| - 1]) * 256 + s[|s| - 1] as nat
  }

  lemma {:induction false} BigEndianRoundTrip(v: nat, k: nat)
    requires v < Pow256(k)
    ensures FromBigEndian(BigEndian(v, k)) == v
  {
    if k > 0 {
      BigEndianRoundTrip(v / 256, k - 1);
      assert BigEndian(v, k)[..k - 1] == BigEndian(v / 256, k - 1);
    }
  }

  /** Fixed-width big-endian keys sort as the numbers do, so a cursor is chronological. */
  lemma {:induction false} BigEndianOrder(v: nat, w: nat, k: nat)
    requires v < Pow256(k) && w < Pow256(k)
    ensures Lt(BigEndian(v, k), BigEndian(w, k)) <==> v < w
    decreases k
  {
    if k > 0 {
      BigEndianOrder(v / 256, w / 256, k - 1);
      var p, q := BigEndian(v / 256, k - 1), BigEndian(w / 256, k - 1);
      LtPrefix(p, q, [Byte(v % 256)], [Byte(w % 256)]);
      LtPrefix(q, p, [Byte(w % 256)], [Byte(v % 256)]);
      BigEndianOrder(w / 256, v / 256, k - 1);
      if p == q {
        BigEndianRoundTrip(v / 256, k - 1);
        BigEndianRoundTrip(w / 256, k - 1);
      } else if Lt(q, p) {
        LtAsymmetric(q + [Byte(w % 256)], p + [Byte(v % 256)]);
      } else {
        LtTotal(p, q);
      }
    }
  }

  const UINT64: nat := 0x1_0000_0000_0000_0000

  lemma Pow256Eight()
    ensures Pow256(8) == UINT64
  {
    assert Pow256(4) == 0x1_0000_0000;
    assert Pow256(8) == 256 * (256 * (256 * (256 * Pow256(4))));
  }

  /** `uint64Key`. */
  function Uint64Key(v: nat): string
    requires v < UINT64
  {
    BigEndian(v, 8)
  }

  lemma Uint64KeyOrder(v: nat, w: nat)
    requires v < UINT64 && w < UINT64
    ensures Lt(Uint64Key(v), Uint64Key(w)) <==> v < w
    ensures FromBigEndian(Uint64Key(v)) == v
  {
    Pow256Eight();
    BigEndianOrder(v, w, 8);
    BigEndianRoundTrip(v, 8);
  }

  // ---------------------------------------------------------------- TTL keys

  function TtlDocKey(collection: string, id: string): string {
    collection + [NUL] + id
  }

  /** `bytes.IndexByte(key, 0)`, with None for -1. */
  function IndexOfNul(key: string): (r: Option<nat>)
    ensures r.Some? ==> r.value < |key| && key[r.value] == NUL && NUL !in key[..r.value]
    ensures r.None? ==> NUL !in key
  {
    if key == "" then None
    else if key[0] == NUL then Some(0)
    else match IndexOfNul(key[1..])
      case None => None
      case Some(i) => Some(i + 1)
  }

  function ParseTtlDocKey(key: string): Option<(string, string)> {
    match IndexOfNul(key)
    case None => None
    case Some(i) => Some((key[..i], key[i + 1..]))
  }

  lemma ParseTtlDocKeySplits(collection: string, id: string)
    ensures NUL !in collection ==> ParseTtlDocKey(TtlDocKey(collection, id)) == Some((collection, id))
    ensures ParseTtlDocKey(TtlDocKey(collection, id)).Some?
    ensures NUL !in ParseTtlDocKey(TtlDocKey(collection, id)).value.0
  {
    var key := TtlDocKey(collection, id);
    assert key[|collection|] == NUL;
    var i := IndexOfNul(key).value;
    if NUL !in collection {
      assert key[..|collection|] == collection;
      assert i >= |collection|;
      assert forall k | 0 <= k < i :: key[..i][k] == key[k] != NUL;
      assert key[i + 1..] == id;
    }
  }

  function TtlIndexKey(expireAt: nat, collection: string, id: string): string
    requires expireAt < UINT64
  {
    Uint64Key(expireAt) + TtlDocKey(collection, id)
  }

  datatype TtlEntry = TtlEntry(expireAt: nat, collection: string, id: string)

  function ParseTtlIndexKey(key: string): Option<TtlEntry> {
    if |key| < 10 then None
    else match ParseTtlDocKey(key[8..])
      case None => None
      case Some((collection, id)) => Some(TtlEntry(FromBigEndian(key[..8]), collection, id))
  }

  /** Parsing undoes encoding exactly for NUL-free collections, provided collection and id are
      not both empty: the parser's length test rejects that nine-byte key. */
  lemma TtlIndexKeyRoundTrip(expireAt: nat, collection: string, id: string)
    requires expireAt < UINT64
    ensures ParseTtlIndexKey(TtlIndexKey(expireAt, collection, id)) == Some(TtlEntry(expireAt, collection, id))
           <==> NUL !in collection && (collection != "" || id != "")
  {
    var key := TtlIndexKey(expireAt, collection, id);
    assert key[..8] == Uint64Key(expireAt);
    assert key[8..] == TtlDocKey(collection, id);
    Uint64KeyOrder(expireAt, expireAt);
    ParseTtlDocKeySplits(collection, id);
  }

  /** Walking the TTL index in key order is walking it in expiry order. */
  lemma TtlIndexKeyChronological(e: nat, c: string, i: string, e': nat, c': string, i': string)
    requires e < UINT64 && e' < UINT64
    requires Lt(TtlIndexKey(e, c, i), TtlIndexKey(e', c', i'))
    ensures e <= e'
  {
    if e' < e {
      Uint64KeyOrder(e', e);
      LtPrefix(Uint64Key(e'), Uint64Key(e), TtlDocKey(c', i'), TtlDocKey(c, i));
      LtAsymmetric(TtlIndexKey(e', c', i'), TtlIndexKey(e, c, i));
    }
  }

  // ---------------------------------------------------------------- prefixed keys

  /** `fmt.Sprintf("%s:%s", collection, suffix)`, the full-text key shape. */
  function ColonKey(collection: string, suffix: string): string {
    collection + ":" + suffix
  }

  /** The prefix scan `collection + ":"` finds exactly the keys of that collection, because
      collection names are colon-free; so full-text keys may be read as pairs. */
  lemma ColonPrefixExact(c: string, d: string, suffix: string)
    requires ':' !in c && ':' !in d
    ensures c + ":" <= ColonKey(d, suffix) <==> c == d
  {
    var key := ColonKey(d, suffix);
    if c + ":" <= key {
      assert key[|c|] == (c + ":")[|c|] == ':';
      assert |c| >= |d|;
      assert forall k | 0 <= k < |c| :: key[k] == (c + ":")[k] == c[k] != ':';
      assert key[|d|] == ':';
      assert c == (c + ":")[..|c|] == key[..|c|] == d;
    }
    if c == d { assert key[..|c| + 1] == c + ":"; }
  }

  lemma ColonKeyInjective(c: string, s: string, d: string, t: string)
    requires ':' !in c && ':' !in d
    requires ColonKey(c, s) == ColonKey(d, t)
    ensures c == d && s == t
  {
    assert ColonKey(c, s)[..|c| + 1] == c + ":";
    assert c + ":" <= ColonKey(d, t);
    ColonPrefixExact(c, d, t);
    assert ColonKey(c, s)[|c| + 1..] == s && ColonKey(d, t)[|d| + 1..] == t;
  }

  // ---------------------------------------------------------------- index bucket names

  /** `getIndexBucketName`. */
  function IndexBucketName(collection: string, field: string): string {
    "_idx_" + collection + "_" + field
  }

  lemma IndexBucketNameBody(c: string, f: string)
    ensures |IndexBucketName(c, f)| == 6 + |c| + |f|
    ensures IndexBucketName(c, f)[5..] == c + "_" + f
  {
  }

  /** Two pairs share a bucket name exactly when they are equal or one collection name is the
      other, an underscore, and a piece that the other pair's field begins with. */
  lemma IndexBucketNameCollision(c: string, f: string, d: string, g: string)
    requires |c| <= |d|
    ensures IndexBucketName(c, f) == IndexBucketName(d, g)
         <==> (|| (c == d && f == g)
               || (|c| < |d| && c + "_" <= d && f == d[|c| + 1..] + "_" + g))
  {
    IndexBucketNameBody(c, f);
    IndexBucketNameBody(d, g);
    var x, y := c + "_" + f, d + "_" + g;
    assert x == y <==> IndexBucketName(c, f) == IndexBucketName(d, g) by {
      assert IndexBucketName(c, f) == "_idx_" + x;
      assert IndexBucketName(d, g) == "_idx_" + y;
    }
    if x == y {
      assert x[..|c|] == c && y[..|d|] == d;
      assert c == d[..|c|];
      assert x[|c| + 1..] == f && y[|d| + 1..] == g;
      if |c| < |d| {
        assert d[|c|] == y[|c|] == x[|c|] == '_';
        assert d[..|c| + 1] == c + "_";
        assert f == y[|c| + 1..] == d[|c| + 1..] + "_" + g;
      } else {
        assert d[..|c|] == d;
      }
    }
    if |c| < |d| && c + "_" <= d && f == d[|c| + 1..] + "_" + g {
      assert d == c + "_" + d[|c| + 1..];
      assert y == x;
    }
  }

  lemma IndexBucketNameInjectiveInField(c: string, f: string, g: string)
    requires IndexBucketName(c, f) == IndexBucketName(c, g)
    ensures f == g
  {
    IndexBucketNameCollision(c, f, c, g);
  }

  lemma UnderscoreAfterPrefix(c: string, d: string)
    requires c + "_" <= d
    ensures '_' in d
  {
    assert d[|c|] == (c + "_")[|c|];
  }

  /** Underscore-free collection names never collide. */
  lemma IndexBucketNameInjective(c: string, f: string, d: string, g: string)
    requires '_' !in c && '_' !in d
    requires IndexBucketName(c, f) == IndexBucketName(d, g)
    ensures c == d && f == g
  {
    if |c| <= |d| {
      IndexBucketNameCollision(c, f, d, g);
      if |c| < |d| { UnderscoreAfterPrefix(c, d); }
    } else {
      IndexBucketNameCollision(d, g, c, f);
      UnderscoreAfterPrefix(d, c);
    }
  }

  // ---------------------------------------------------------------- names

  predicate NameChar(c: char) {
    'a' <= c <= 'z' || 'A' <= c <= 'Z' || '0' <= c <= '9' || c == '_' || c == '-' || c == '.'
  }

  predicate AlphaNumeric(c: char) {
    'a' <= c <= 'z' || 'A' <= c <= 'Z' || '0' <= c <= '9'
  }

  predicate HasDotDot(s: string) {
    exists i | 0 <= i < |s| - 1 :: s[i] == '.' && s[i + 1] == '.'
  }

  /** `validateSegment`: the shape of collection names and document ids. */
  predicate ValidSegment(s: string) {
    && s != "" && |s| <= 128
    && s != "." && !HasDotDot(s)
    && (forall i | 0 <= i < |s| :: NameChar(s[i]))
    && AlphaNumeric(s[0])
  }

  /** A name, built up character by character: it starts with a letter or digit, and goes on with one
      more letter, digit, underscore, dash or dot, no dot after a dot, up to 128 of them. */
  lemma SegmentsGrowByOne(s: string, c: char)
    ensures ValidSegment([c]) <==> 'a' <= c <= 'z' || 'A' <= c <= 'Z' || '0' <= c <= '9'
    ensures s != "" ==> (ValidSegment(s + [c]) <==>
              && ValidSegment(s) && |s| < 128
              && ('a' <= c <= 'z' || 'A' <= c <= 'Z' || '0' <= c <= '9' || c == '_' || c == '-' || (c == '.' && s[|s| - 1] != '.')))
    ensures !ValidSegment("")
  {
    var t := s + [c];
    if s != "" {
      assert t[..|s|] == s && t[0] == s[0];
      assert HasDotDot(s) ==> HasDotDot(t) by { if i :| 0 <= i < |s| - 1 && s[i] == '.' && s[i + 1] == '.' { assert t[i] == '.' && t[i + 1] == '.'; } }
      if HasDotDot(t) {
        var i :| 0 <= i < |t| - 1 && t[i] == '.' && t[i + 1] == '.';
        assert i + 1 < |s| ==> s[i] == '.' && s[i + 1] == '.';
      }
      if c == '.' && s[|s| - 1] == '.' { assert t[|s| - 1] == '.' && t[|s|] == '.'; }
      if ValidSegment(t) {
        forall i | 0 <= i < |s| ensures NameChar(s[i]) { assert t[i] == s[i]; }
        assert NameChar(t[|s|]);
      }
    }
  }

  /** A field name is a non-empty text of at most 128 such characters, in any order. */
  lemma FieldsGrowByOne(s: string, c: char)
    ensures !ValidField("")
    ensures ValidField(s + [c]) <==>
              && (s == "" || ValidField(s)) && |s| < 128
              && ('a' <= c <= 'z' || 'A' <= c <= 'Z' || '0' <= c <= '9' || c == '_' || c == '-' || c == '.')
  {
    var t := s + [c];
    assert t[|s|] == c && forall i | 0 <= i < |s| :: t[i] == s[i];
  }

  /** "collections", each letter in either case, names no collection; every other segment does. */
  lemma CollectionsIsReserved(s: string)
    ensures ValidCollection(s) <==>
              ValidSegment(s) && !(|s| == 11 && forall i | 0 <= i < 11 :: s[i] == "collections"[i] || s[i] == "COLLECTIONS"[i])
  {
    var low, up := "collections", "COLLECTIONS";
    assert forall i | 0 <= i < 11 :: LowerChar(low[i]) == low[i] && LowerChar(up[i]) == low[i];
    if |s| == 11 {
      forall i | 0 <= i < 11 ensures LowerChar(s[i]) == low[i] <==> s[i] == low[i] || s[i] == up[i] {
        OnlyTwoCases(s[i], low[i], up[i]);
      }
      assert Lower(s) == low <==> forall i | 0 <= i < 11 :: Lower(s)[i] == low[i];
    }
  }

  lemma OnlyTwoCases(c: char, low: char, up: char)
    requires 'a' <= low <= 'z' && up as int + 32 == low as int
    ensures LowerChar(c) == low <==> c == low || c == up
  {
  }

  lemma ValidSegmentHasNoSeparators(s: string)
    requires ValidSegment(s)
    ensures NUL !in s && ':' !in s && s[0] != '_'
  {
  }

  function LowerChar(c: char): char {
    if 'A' <= c <= 'Z' then (c as int + 32) as char else c
  }

  function Lower(s: string): (r: string)
    ensures |r| == |s| && forall i | 0 <= i < |s| :: r[i] == LowerChar(s[i])
  {
    seq(|s|, i requires 0 <= i < |s| => LowerChar(s[i]))
  }

  /** `ValidateCollectionName`: one name, in any letter case, belongs to the management API. */
  predicate ValidCollection(s: string) {
    ValidSegment(s) && Lower(s) != "collections"
  }

  predicate ValidField(s: string) {
    s != "" && |s| <= 128 && forall i | 0 <= i < |s| :: NameChar(s[i])
  }

  method ContainsDotDot(s: string) returns (found: bool)
    ensures found == HasDotDot(s)
  {
    for i := 0 to |s|
      invariant forall j | 0 <= j < i && j < |s| - 1 :: !(s[j] == '.' && s[j + 1] == '.')
    {
      if i + 1 < |s| && s[i] == '.' && s[i + 1] == '.' { return true; }
    }
    return false;
  }

  method ValidateSegment(value: string) returns (ok: bool)
    ensures ok == ValidSegment(value)
  {
    if value == "" || |value| > 128 { return false; }
    var dots := ContainsDotDot(value);
    if value == "." || dots { return false; }
    for i := 0 to |value|
      invariant forall j | 0 <= j < i :: NameChar(value[j])
      invariant i > 0 ==> AlphaNumeric(value[0])
    {
      if !NameChar(value[i]) { return false; }
      if i == 0 && !AlphaNumeric(value[i]) { return false; }
    }
    return true;
  }

  method ValidateFieldName(name: string) returns (ok: bool)
    ensures ok == ValidField(name)
  {
    if name == "" || |name| > 128 { return false; }
    for i := 0 to |name|
      invariant forall j | 0 <= j < i :: NameChar(name[j])
    {
      if !NameChar(name[i]) { return false; }
    }
    return true;
  }
}
