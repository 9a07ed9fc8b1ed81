/** Full-text maintenance inside an update transaction, and the search over postings. */
module TextTx {
  import opened ByteOrder
  import opened Documents
  import opened Storage
  import opened FullText
  import opened Maintenance
  import opened Writes
  import opened Bolt

  // ---------------------------------------------------------------- one posting

  lemma FlattenSet(postings: map<TextKey, PostingList>, key: TextKey, p: PostingList)
    ensures forall e: Posting :: e in Flatten(postings[key := p]) <==>
              if TextKey(e.collection, e.token) == key then e.id in Members(p) else e in Flatten(postings)
  {
    var postings' := postings[key := p];
    forall e: Posting
      ensures e in Flatten(postings') <==> if TextKey(e.collection, e.token) == key then e.id in Members(p) else e in Flatten(postings)
    {
      FlattenHas(postings', e);
      FlattenHas(postings, e);
    }
  }

  lemma FlattenHas(postings: map<TextKey, PostingList>, e: Posting)
    ensures e in Flatten(postings) <==>
            TextKey(e.collection, e.token) in postings && e.id in Members(postings[TextKey(e.collection, e.token)])
  {
    var k := TextKey(e.collection, e.token);
    if k in postings && e.id in Members(postings[k]) {
      assert e == Posting(k.collection, k.token, e.id);
    }
  }

  /** `getOrCreateFTSTokenBucket`: a legacy list becomes a bucket with the same members. */
  method GetOrCreateTokenBucket(tx: Tx, key: TextKey) returns (ids: set<Id>)
    modifies tx`postings
    ensures tx.postings == old(tx.postings)[key := Bucket(ids)]
    ensures ids == if key in old(tx.postings) then Members(old(tx.postings)[key]) else {}
  {
    ids := {};
    if key in tx.postings {
      match tx.postings[key] {
        case Bucket(existing) =>
          ids := existing;
        case Legacy(list) =>
          for i := 0 to |list|
            invariant unchanged(tx)
            invariant ids == Elements(list[..i])
          {
            ElementsAppend(list, i);
            ids := ids + {list[i]};
          }
          ElementsWhole(list);
      }
    }
    tx.postings := tx.postings[key := Bucket(ids)];
  }

  function Keep(s: seq<Id>, good: set<Id>): seq<Id> {
    if s == [] then []
    else Keep(s[..|s| - 1], good) + if s[|s| - 1] in good then [s[|s| - 1]] else []
  }

  lemma {:induction false} KeepMembers(s: seq<Id>, good: set<Id>)
    ensures forall x :: x in Keep(s, good) <==> x in s && x in good
    ensures |Keep(s, good)| <= |s|
  {
    if s != [] {
      KeepMembers(s[..|s| - 1], good);
      assert s == s[..|s| - 1] + [s[|s| - 1]];
    }
  }

  lemma {:induction false} KeepTwice(s: seq<Id>, good: set<Id>, better: set<Id>)
    ensures Keep(Keep(s, good), better) == Keep(s, good * better)
  {
    if s != [] {
      var front, last := s[..|s| - 1], s[|s| - 1];
      KeepTwice(front, good, better);
      var kept := Keep(front, good);
      if last in good {
        assert Keep(s, good) == kept + [last];
        assert (kept + [last])[..|kept|] == kept;
      } else {
        assert Keep(s, good) == kept;
      }
    }
  }

  lemma {:induction false} KeepAll(s: seq<Id>, good: set<Id>)
    requires forall x | x in s :: x in good
    ensures Keep(s, good) == s
  {
    if s != [] {
      var front, last := s[..|s| - 1], s[|s| - 1];
      assert s == front + [last];
      KeepAll(front, good);
    }
  }

  /** The kept elements stand in ascending order, without repetition. */
  ghost predicate AscendAmong(s: seq<Id>, good: set<Id>) {
    forall i, j | 0 <= i < j < |s| && s[i] in good && s[j] in good :: Lt(s[i], s[j])
  }

  lemma {:induction false} KeepAscendsIff(s: seq<Id>, good: set<Id>)
    ensures Increasing(Keep(s, good)) <==> AscendAmong(s, good)
  {
    if s != [] {
      var front, last := s[..|s| - 1], s[|s| - 1];
      var kept, all := Keep(front, good), Keep(s, good);
      KeepAscendsIff(front, good);
      KeepMembers(front, good);
      if AscendAmong(s, good) {
        forall x | x in kept && last in good ensures Lt(x, last) {
          var i :| 0 <= i < |front| && front[i] == x;
          assert s[i] == x;
        }
        assert AscendAmong(front, good);
      }
      if Increasing(all) {
        assert forall i | 0 <= i < |kept| :: all[i] == kept[i];
        assert Increasing(kept);
        forall i | 0 <= i < |front| && s[i] in good && last in good ensures Lt(s[i], last) {
          assert front[i] in kept;
          var k :| 0 <= k < |kept| && kept[k] == front[i];
          assert all[k] == s[i] && all[|kept|] == last;
        }
      }
    }
  }

  /** The shared-array filter of `removeStringFromJSONList` and of `searchFTS`: matches are moved
      to the front of the very array being read. */
  method CompactInPlace(a: array<Id>, n: nat, good: set<Id>) returns (m: nat)
    requires n <= a.Length
    modifies a
    ensures m <= n && a[..m] == Keep(old(a[..n]), good)
  {
    m := 0;
    ghost var was := a[..n];
    for k := 0 to n
      invariant m <= k
      invariant a[..m] == Keep(was[..k], good)
      invariant forall j | k <= j < n :: a[j] == was[j]
    {
      assert was[..k + 1][..k] == was[..k];
      if a[k] in good {
        a[m] := a[k];
        m := m + 1;
      }
    }
    assert was[..n] == was;
  }

  method RemoveFromList(list: seq<Id>, id: Id) returns (kept: seq<Id>)
    ensures Elements(kept) == Elements(list) - {id}
  {
    var a := new Id[|list|](i requires 0 <= i < |list| => list[i]);
    assert a[..|list|] == list;
    var m := CompactInPlace(a, |list|, Elements(list) - {id});
    KeepMembers(list, Elements(list) - {id});
    kept := a[..m];
  }

  // ---------------------------------------------------------------- indexing one document

  /** `indexFTS`; the order in which the token set is listed does not matter. */
  method IndexTextTx(r: Rules, tx: Tx, c: Collection, id: Id, d: Doc)
    modifies tx`postings, tx`reverse
    ensures tx.TextTables() == IndexText(r, old(tx.TextTables()), c, id, d)
    ensures old(NoEmptyPostings(tx.postings)) ==> NoEmptyPostings(tx.postings)
  {
    if c !in tx.config { return; }
    var tokens := Ascending(r.docTokens(d, tx.config[c]));
    assert Elements(tokens) == r.docTokens(d, tx.config[c]);
    if |tokens| == 0 { return; }
    assert tokens[0] in Elements(tokens);
    tx.reverse := tx.reverse[DocKey(c, id) := tokens];
    AddPostings(tx, c, tokens, id);
    assert tx.TextTables().reverse == old(tx.TextTables()).reverse[DocKey(c, id) := Elements(tokens)];
  }

  /** The forward half of `indexFTS`. */
  method AddPostings(tx: Tx, c: Collection, tokens: seq<Token>, id: Id)
    modifies tx`postings
    ensures Flatten(tx.postings) == old(Flatten(tx.postings)) + PostingsOf(c, Elements(tokens), id)
    ensures old(NoEmptyPostings(tx.postings)) ==> NoEmptyPostings(tx.postings)
  {
    ghost var was := tx.postings;
    for i := 0 to |tokens|
      invariant Flatten(tx.postings) == Flatten(was) + PostingsOf(c, Elements(tokens[..i]), id)
      invariant NoEmptyPostings(was) ==> NoEmptyPostings(tx.postings)
    {
      ElementsAppend(tokens, i);
      var key := TextKey(c, tokens[i]);
      ghost var mid := tx.postings;
      var ids := GetOrCreateTokenBucket(tx, key);
      tx.postings := tx.postings[key := Bucket(ids + {id})];
      PostingAdded(mid, key, id, tx.postings);
    }
    ElementsWhole(tokens);
  }

  ghost function PostingsOf(c: Collection, tokens: set<Token>, id: Id): set<Posting> {
    set w | w in tokens :: Posting(c, w, id)
  }

  lemma PostingAdded(mid: map<TextKey, PostingList>, key: TextKey, id: Id, now: map<TextKey, PostingList>)
    requires now == mid[key := Bucket((if key in mid then Members(mid[key]) else {}) + {id})]
    ensures Flatten(now) == Flatten(mid) + {Posting(key.collection, key.token, id)}
  {
    FlattenSet(mid, key, now[key]);
    forall e: Posting ensures e in Flatten(now) <==> e in Flatten(mid) + {Posting(key.collection, key.token, id)} {
      FlattenHas(mid, e);
    }
  }

  /** One token of `unindexFTS`, on a bucket or on a legacy list. */
  method RemovePosting(tx: Tx, key: TextKey, id: Id)
    modifies tx`postings
    ensures Flatten(tx.postings) == old(Flatten(tx.postings)) - {Posting(key.collection, key.token, id)}
    ensures old(NoEmptyPostings(tx.postings)) ==> NoEmptyPostings(tx.postings)
  {
    ghost var mid := tx.postings;
    if key in tx.postings {
      match tx.postings[key] {
        case Bucket(ids) =>
          assert forall x | x in ids :: x in ids - {id} || x == id;
          tx.postings := if ids - {id} == {} then tx.postings - {key} else tx.postings[key := Bucket(ids - {id})];
        case Legacy(list) =>
          var kept := RemoveFromList(list, id);
          if |kept| == 0 {
            assert Elements(list) - {id} == {};
            assert forall x | x in Elements(list) :: x in Elements(list) - {id} || x == id;
            tx.postings := tx.postings - {key};
          } else {
            assert kept[0] in Elements(kept);
            tx.postings := tx.postings[key := Legacy(kept)];
          }
      }
    }
    PostingDropped(mid, key, id, tx.postings);
  }

  lemma PostingDropped(mid: map<TextKey, PostingList>, key: TextKey, id: Id, now: map<TextKey, PostingList>)
    requires key !in mid ==> now == mid
    requires key in mid && key in now ==> now == mid[key := now[key]] && Members(now[key]) == Members(mid[key]) - {id}
    requires key in mid && key !in now ==> now == mid - {key} && Members(mid[key]) <= {id}
    ensures Flatten(now) == Flatten(mid) - {Posting(key.collection, key.token, id)}
  {
    forall e: Posting ensures e in Flatten(now) <==> e in Flatten(mid) - {Posting(key.collection, key.token, id)} {
      FlattenHas(mid, e);
      FlattenHas(now, e);
    }
  }

  /** `unindexFTS`. */
  method UnindexTextTx(tx: Tx, c: Collection, id: Id)
    modifies tx`postings, tx`reverse
    ensures tx.TextTables() == UnindexText(old(tx.TextTables()), c, id)
    ensures old(NoEmptyPostings(tx.postings)) ==> NoEmptyPostings(tx.postings)
  {
    var key := DocKey(c, id);
    if key !in tx.reverse { return; }
    var tokens := tx.reverse[key];
    ghost var was := tx.postings;
    for i := 0 to |tokens|
      invariant tx.reverse == old(tx.reverse)
      invariant Flatten(tx.postings) == Flatten(was) - PostingsOf(c, Elements(tokens[..i]), id)
      invariant NoEmptyPostings(was) ==> NoEmptyPostings(tx.postings)
    {
      ElementsAppend(tokens, i);
      RemovePosting(tx, TextKey(c, tokens[i]), id);
    }
    ElementsWhole(tokens);
    tx.reverse := tx.reverse - {key};
    assert tx.TextTables().reverse == old(tx.TextTables()).reverse - {key};
  }

  /** `deleteFTSForCollectionTx`: the prefix scans of both tables. */
  method DeleteTextForCollection(tx: Tx, c: Collection)
    modifies tx`config, tx`postings, tx`reverse
    ensures tx.TextTables() == DropText(old(tx.TextTables()), c)
    ensures old(NoEmptyPostings(tx.postings)) ==> NoEmptyPostings(tx.postings)
  {
    tx.config := tx.config - {c};
    ghost var was, wasReverse := tx.postings, tx.reverse;
    var doomed := set k | k in tx.postings && k.collection == c;
    while doomed != {}
      invariant tx.config == old(tx.config) - {c} && tx.reverse == wasReverse
      invariant doomed == set k | k in tx.postings && k.collection == c
      invariant forall k: TextKey | k.collection != c :: (k in tx.postings <==> k in was) && (k in was ==> tx.postings[k] == was[k])
      invariant NoEmptyPostings(was) ==> NoEmptyPostings(tx.postings)
      decreases |doomed|
    {
      var k :| k in doomed;
      tx.postings := tx.postings - {k};
      doomed := doomed - {k};
    }
    forall e: Posting ensures e in Flatten(tx.postings) <==> e in Flatten(was) && e.collection != c {
      FlattenHas(tx.postings, e);
      FlattenHas(was, e);
      var k := TextKey(e.collection, e.token);
      assert k in tx.postings && k.collection == c ==> k in doomed;
    }
    DeleteReverseForCollection(tx, c);
  }

  /** The second prefix scan, over the reverse entries. */
  method DeleteReverseForCollection(tx: Tx, c: Collection)
    modifies tx`reverse
    ensures TokenSets(tx.reverse) == map k | k in old(TokenSets(tx.reverse)) && k.collection != c :: old(TokenSets(tx.reverse))[k]
  {
    ghost var was := tx.reverse;
    var doomed := set k | k in tx.reverse && k.collection == c;
    while doomed != {}
      invariant doomed == set k | k in tx.reverse && k.collection == c
      invariant forall k: DocKey | k.collection != c :: (k in tx.reverse <==> k in was) && (k in was ==> tx.reverse[k] == was[k])
      decreases |doomed|
    {
      var k :| k in doomed;
      tx.reverse := tx.reverse - {k};
      doomed := doomed - {k};
    }
    forall k | k in tx.reverse ensures k.collection != c {
      assert k in tx.reverse && k.collection == c ==> k in doomed;
    }
  }

  /** The configuring transaction of `SetFTSConfig`. */
  method ConfigureTextTx(tx: Tx, c: Collection, fields: seq<Field>)
    modifies tx`config, tx`postings, tx`reverse
    ensures tx.TextTables() == Configure(old(tx.TextTables()), c, fields)
  {
    DeleteTextForCollection(tx, c);
    tx.config := tx.config[c := fields];
  }
}
