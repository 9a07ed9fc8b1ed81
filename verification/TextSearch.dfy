/** `searchFTS`: intersecting the postings of the query's tokens in place. */
module TextSearch {
  import opened ByteOrder
  import opened Documents
  import opened Storage
  import opened FullText
  import opened Bolt
  import opened TextTx

  /** `getFTSDocIDs`: a bucket lists its ids in key order, a legacy list in its own order. */
  function DocIds(p: PostingList): (ids: seq<Id>)
    ensures Elements(ids) == Members(p)
  {
    match p
    case Legacy(list) => list
    case Bucket(ids) => Ascending(ids)
  }

  ghost predicate HasAll(postings: map<TextKey, PostingList>, c: Collection, tokens: seq<Token>, id: Id) {
    forall t | t in tokens :: TextKey(c, t) in postings && id in Members(postings[TextKey(c, t)])
  }

  ghost predicate AllAscending(postings: map<TextKey, PostingList>, c: Collection, tokens: seq<Token>) {
    forall t | t in tokens && TextKey(c, t) in postings :: Increasing(DocIds(postings[TextKey(c, t)]))
  }

  ghost predicate InEvery(lists: seq<seq<Id>>, id: Id) {
    forall l | l in lists :: id in l
  }

  ghost predicate ByLength(lists: seq<seq<Id>>) {
    forall i, j | 0 <= i < j < |lists| :: |lists[i]| <= |lists[j]|
  }

  /** Shortest first, as `sort.Slice` arranges the postings; ties may fall either way. */
  method SortByLength(lists: seq<seq<Id>>) returns (sorted: seq<seq<Id>>)
    ensures multiset(sorted) == multiset(lists)
    ensures ByLength(sorted)
  {
    sorted := [];
    for i := 0 to |lists|
      invariant multiset(sorted) == multiset(lists[..i])
      invariant ByLength(sorted)
    {
      assert lists[..i + 1] == lists[..i] + [lists[i]];
      sorted := InsertByLength(sorted, lists[i]);
    }
    assert lists[..|lists|] == lists;
  }

  method InsertByLength(lists: seq<seq<Id>>, l: seq<Id>) returns (more: seq<seq<Id>>)
    requires ByLength(lists)
    ensures multiset(more) == multiset(lists) + multiset{l}
    ensures ByLength(more)
  {
    var k := 0;
    while k < |lists| && |lists[k]| <= |l|
      invariant k <= |lists|
      invariant forall j | 0 <= j < k :: |lists[j]| <= |l|
    {
      k := k + 1;
    }
    more := lists[..k] + [l] + lists[k..];
    Spliced(lists, k, l);
  }

  lemma Spliced(lists: seq<seq<Id>>, k: nat, l: seq<Id>)
    requires k <= |lists| && ByLength(lists)
    requires forall j | 0 <= j < k :: |lists[j]| <= |l|
    requires k < |lists| ==> |l| < |lists[k]|
    ensures multiset(lists[..k] + [l] + lists[k..]) == multiset(lists) + multiset{l}
    ensures ByLength(lists[..k] + [l] + lists[k..])
  {
    assert lists == lists[..k] + lists[k..];
    var more := lists[..k] + [l] + lists[k..];
    assert forall j | k <= j < |lists| :: |l| <= |lists[j]|;
    forall i, j | 0 <= i < j < |more| ensures |more[i]| <= |more[j]| {
      SplicedAt(lists, k, l, i);
      SplicedAt(lists, k, l, j);
    }
  }

  lemma SplicedAt(lists: seq<seq<Id>>, k: nat, l: seq<Id>, i: nat)
    requires k <= |lists| && i <= |lists|
    ensures (lists[..k] + [l] + lists[k..])[i] == if i < k then lists[i] else if i == k then l else lists[i - 1]
  {
  }

  /** The ids of a list that stand in every one of the lists. */
  ghost function Common(l: seq<Id>, lists: seq<seq<Id>>): set<Id> {
    set id | id in l && InEvery(lists, id)
  }

  lemma CommonOneMore(l: seq<Id>, lists: seq<seq<Id>>, j: nat)
    requires j < |lists|
    ensures Common(l, lists[..j + 1]) == Common(l, lists[..j]) * Elements(lists[j])
  {
    assert lists[..j + 1] == lists[..j] + [lists[j]];
  }

  lemma CommonOfFirst(lists: seq<seq<Id>>)
    requires lists != []
    ensures Keep(lists[0], Common(lists[0], lists[..1])) == lists[0]
  {
    assert lists[..1] == [lists[0]];
    KeepAll(lists[0], Common(lists[0], lists[..1]));
  }

  lemma CommonShrinks(l: seq<Id>, lists: seq<seq<Id>>, j: nat)
    requires j <= |lists|
    ensures Common(l, lists) <= Common(l, lists[..j])
  {
    assert forall m | m in lists[..j] :: m in lists;
  }

  lemma NothingCommon(l: seq<Id>, lists: seq<seq<Id>>, j: nat)
    requires j <= |lists| && Keep(l, Common(l, lists[..j])) == []
    ensures Keep(l, Common(l, lists)) == []
  {
    CommonShrinks(l, lists, j);
    KeepMembers(l, Common(l, lists[..j]));
    KeepMembers(l, Common(l, lists));
    NonemptyHasMember(Keep(l, Common(l, lists)));
  }

  /** Intersects the lists inside the array of the first, which is overwritten while it is read:
      what remains are the common ids, in the order and as often as the first list has them. */
  method IntersectInPlace(lists: seq<seq<Id>>) returns (ids: seq<Id>)
    requires lists != []
    ensures ids == Keep(lists[0], Common(lists[0], lists))
    ensures forall id :: id in ids <==> InEvery(lists, id)
  {
    var first := lists[0];
    var a := new Id[|first|](i requires 0 <= i < |first| => first[i]);
    var n := |first|;
    assert a[..n] == first;
    CommonOfFirst(lists);
    KeepMembers(first, Common(first, lists));
    assert first in lists;
    for j := 1 to |lists|
      invariant 0 <= n <= a.Length
      invariant a[..n] == Keep(first, Common(first, lists[..j]))
    {
      CommonOneMore(first, lists, j);
      KeepTwice(first, Common(first, lists[..j]), Elements(lists[j]));
      n := CompactInPlace(a, n, Elements(lists[j]));
      if n == 0 {
        NothingCommon(first, lists, j + 1);
        return [];
      }
    }
    assert lists[..|lists|] == lists;
    ids := a[..n];
  }

  // ---------------------------------------------------------------- the result of a search

  ghost predicate AllPosted(postings: map<TextKey, PostingList>, c: Collection, tokens: seq<Token>) {
    forall t | t in tokens :: TextKey(c, t) in postings
  }

  /** The posting read first: no other of the query is shorter. */
  ghost predicate IsShortest(postings: map<TextKey, PostingList>, c: Collection, tokens: seq<Token>, t: Token)
    requires AllPosted(postings, c, tokens)
  {
    t in tokens && forall u | u in tokens :: |DocIds(postings[TextKey(c, t)])| <= |DocIds(postings[TextKey(c, u)])|
  }

  /** The ids posted under every token, as far as they stand in the posting of one. */
  ghost function Hits(postings: map<TextKey, PostingList>, c: Collection, tokens: seq<Token>, t: Token): set<Id>
    requires TextKey(c, t) in postings
  {
    set id | id in DocIds(postings[TextKey(c, t)]) && HasAll(postings, c, tokens, id)
  }

  ghost predicate FilteredBy(postings: map<TextKey, PostingList>, c: Collection, tokens: seq<Token>, t: Token, ids: seq<Id>)
    requires AllPosted(postings, c, tokens)
  {
    IsShortest(postings, c, tokens, t) && ids == Keep(DocIds(postings[TextKey(c, t)]), Hits(postings, c, tokens, t))
  }

  /** What a search returns: nothing without tokens or with one that is posted nowhere; else a
      shortest posting, filtered in its own order. */
  ghost predicate IsSearchResult(postings: map<TextKey, PostingList>, c: Collection, tokens: seq<Token>, ids: seq<Id>) {
    if tokens == [] || !AllPosted(postings, c, tokens) then ids == []
    else exists t :: FilteredBy(postings, c, tokens, t, ids)
  }

  /** The posting lists of a query, token by token. */
  ghost predicate AreLists(postings: map<TextKey, PostingList>, c: Collection, tokens: seq<Token>, lists: seq<seq<Id>>) {
    && |lists| <= |tokens|
    && forall k | 0 <= k < |lists| :: TextKey(c, tokens[k]) in postings && lists[k] == DocIds(postings[TextKey(c, tokens[k])])
  }

  lemma AnEmptyPosting(postings: map<TextKey, PostingList>, c: Collection, tokens: seq<Token>, t: Token)
    requires t in tokens && TextKey(c, t) in postings && DocIds(postings[TextKey(c, t)]) == []
    ensures IsSearchResult(postings, c, tokens, [])
  {
    if AllPosted(postings, c, tokens) {
      assert FilteredBy(postings, c, tokens, t, []);
    }
  }

  lemma TheShortest(postings: map<TextKey, PostingList>, c: Collection, tokens: seq<Token>, lists: seq<seq<Id>>, sorted: seq<seq<Id>>)
    requires tokens != [] && AreLists(postings, c, tokens, lists) && |lists| == |tokens|
    requires multiset(sorted) == multiset(lists) && ByLength(sorted) && sorted != []
    ensures IsSearchResult(postings, c, tokens, Keep(sorted[0], Common(sorted[0], sorted)))
  {
    SameMembers(sorted, lists);
    EveryIsAll(postings, c, tokens, lists);
    assert sorted[0] in sorted && sorted[0] in lists;
    var k :| 0 <= k < |lists| && lists[k] == sorted[0];
    var t := tokens[k];
    forall u | u in tokens ensures TextKey(c, u) in postings && |sorted[0]| <= |DocIds(postings[TextKey(c, u)])| {
      var m :| 0 <= m < |tokens| && tokens[m] == u;
      assert lists[m] in lists && lists[m] in sorted;
      var n :| 0 <= n < |sorted| && sorted[n] == lists[m];
    }
    assert Common(sorted[0], sorted) == Hits(postings, c, tokens, t);
    assert FilteredBy(postings, c, tokens, t, Keep(sorted[0], Common(sorted[0], sorted)));
  }

  /** The loop over the tokens, the sort and the intersection. */
  method SearchFts(postings: map<TextKey, PostingList>, c: Collection, tokens: seq<Token>) returns (ids: seq<Id>)
    ensures IsSearchResult(postings, c, tokens, ids)
  {
    if tokens == [] { return []; }
    var lists := [];
    for i := 0 to |tokens|
      invariant |lists| == i && AreLists(postings, c, tokens, lists)
    {
      var key := TextKey(c, tokens[i]);
      assert tokens[i] in tokens;
      if key !in postings { return []; }
      var ids := DocIds(postings[key]);
      if |ids| == 0 {
        AnEmptyPosting(postings, c, tokens, tokens[i]);
        return [];
      }
      lists := lists + [ids];
    }
    var sorted := SortByLength(lists);
    assert |sorted| == |multiset(sorted)| == |multiset(lists)| == |lists|;
    TheShortest(postings, c, tokens, lists, sorted);
    ids := IntersectInPlace(sorted);
  }

  /** A search with tokens finds exactly the ids posted under every one of them, whatever the order
      of the tokens and whichever postings are legacy lists; none without tokens. */
  lemma SearchFindsExactlyTheHits(postings: map<TextKey, PostingList>, c: Collection, tokens: seq<Token>, ids: seq<Id>)
    requires IsSearchResult(postings, c, tokens, ids)
    ensures forall id :: id in ids <==> tokens != [] && HasAll(postings, c, tokens, id)
  {
    if tokens != [] && AllPosted(postings, c, tokens) {
      var t :| FilteredBy(postings, c, tokens, t, ids);
      KeepMembers(DocIds(postings[TextKey(c, t)]), Hits(postings, c, tokens, t));
      forall id ensures id in ids <==> HasAll(postings, c, tokens, id) {
        assert HasAll(postings, c, tokens, id) ==> id in Elements(DocIds(postings[TextKey(c, t)]));
      }
    }
  }

  /** The ids found are ascending and free of repetition if and only if those common to all postings
      stand that way in the posting they were filtered from, a shortest one of the query. */
  lemma SearchAscendsIff(postings: map<TextKey, PostingList>, c: Collection, tokens: seq<Token>, ids: seq<Id>) returns (t: Token)
    requires IsSearchResult(postings, c, tokens, ids) && tokens != [] && AllPosted(postings, c, tokens)
    ensures FilteredBy(postings, c, tokens, t, ids)
    ensures Increasing(ids) <==> AscendAmong(DocIds(postings[TextKey(c, t)]), Hits(postings, c, tokens, t))
  {
    t :| FilteredBy(postings, c, tokens, t, ids);
    KeepAscendsIff(DocIds(postings[TextKey(c, t)]), Hits(postings, c, tokens, t));
  }

  /** So they are when every posting read ascends, as bucket postings always do. */
  lemma AscendingPostingsSuffice(postings: map<TextKey, PostingList>, c: Collection, tokens: seq<Token>, ids: seq<Id>)
    requires IsSearchResult(postings, c, tokens, ids) && AllAscending(postings, c, tokens)
    ensures Increasing(ids)
  {
    if tokens != [] && AllPosted(postings, c, tokens) {
      var t := SearchAscendsIff(postings, c, tokens, ids);
    }
  }

  lemma SameMembers(a: seq<seq<Id>>, b: seq<seq<Id>>)
    requires multiset(a) == multiset(b)
    ensures forall l :: l in a <==> l in b
    ensures forall id :: InEvery(a, id) <==> InEvery(b, id)
  {
    forall l ensures l in a <==> l in b {
      assert l in a <==> l in multiset(a);
    }
  }

  lemma EveryIsAll(postings: map<TextKey, PostingList>, c: Collection, tokens: seq<Token>, lists: seq<seq<Id>>)
    requires |lists| == |tokens|
    requires forall k | 0 <= k < |tokens| :: TextKey(c, tokens[k]) in postings && lists[k] == DocIds(postings[TextKey(c, tokens[k])])
    ensures forall id :: InEvery(lists, id) <==> HasAll(postings, c, tokens, id)
    ensures AllAscending(postings, c, tokens) ==> forall l | l in lists :: Increasing(l)
  {
    forall id ensures InEvery(lists, id) <==> HasAll(postings, c, tokens, id) {
      if InEvery(lists, id) {
        forall t | t in tokens ensures id in Members(postings[TextKey(c, t)]) {
          var k :| 0 <= k < |tokens| && tokens[k] == t;
          assert lists[k] in lists;
          assert id in Elements(lists[k]);
        }
      }
      if HasAll(postings, c, tokens, id) {
        forall l | l in lists ensures id in l {
          var k :| 0 <= k < |lists| && lists[k] == l;
          assert tokens[k] in tokens;
          assert id in Elements(l);
        }
      }
    }
  }

  // ---------------------------------------------------------------- what a search means

  /** With the tables in step, the ids posted under every query token are exactly the indexed
      documents whose tokens include all of them. */
  lemma PostedUnderAllIffTokensIncluded(r: Rules, docs: map<Collection, map<Id, Doc>>, t: Fts, c: Collection, id: Id, tokens: set<Token>)
    requires TextInv(r, docs, t) && tokens != {}
    ensures (forall w | w in tokens :: Posting(c, w, id) in t.forward)
       <==> (DocKey(c, id) in t.reverse && Live(docs, c, id) && c in t.config && tokens <= r.docTokens(docs[c][id], t.config[c]))
  {
    var k := DocKey(c, id);
    var w :| w in tokens;
    if forall w | w in tokens :: Posting(c, w, id) in t.forward {
      assert Posting(c, w, id) in t.forward;
      forall v | v in tokens ensures v in t.reverse[k] {
        assert Posting(c, v, id) in t.forward;
      }
    }
  }

  /** A search for one token returns its posting as it is: a legacy list comes back in the order it
      was stored, ascending if and only if it was stored so. */
  lemma LegacyOrderShowsThrough(postings: map<TextKey, PostingList>, c: Collection, w: Token, list: seq<Id>, ids: seq<Id>)
    requires TextKey(c, w) in postings && postings[TextKey(c, w)] == Legacy(list)
    requires IsSearchResult(postings, c, [w], ids)
    ensures ids == list && (Increasing(ids) <==> Increasing(list))
  {
    var t := SearchAscendsIff(postings, c, [w], ids);
    assert t == w;
    forall id | id in list ensures id in Hits(postings, c, [w], w) {
      assert id in Elements(DocIds(postings[TextKey(c, w)]));
    }
    KeepAll(list, Hits(postings, c, [w], w));
  }

  /** Ids stored as "b", "a" are found as "b", "a". */
  lemma LegacyOrderExample(c: Collection, ids: seq<Id>)
    requires IsSearchResult(map[TextKey(c, "word") := Legacy(["b", "a"])], c, ["word"], ids)
    ensures ids == ["b", "a"] && !Increasing(ids)
  {
    LegacyOrderShowsThrough(map[TextKey(c, "word") := Legacy(["b", "a"])], c, "word", ["b", "a"], ids);
    assert ids[0] == "b" && ids[1] == "a" && !Lt("b", "a");
  }
}
