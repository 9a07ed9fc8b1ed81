/** The two TTL tables: the expiry a document owns and the time-ordered purge keys. */
module TtlTables {
  import opened ByteOrder
  import opened Documents
  import opened Keys
  import opened Storage

  function DueKey(k: DocKey, e: Expiry): string {
    TtlIndexKey(e, k.collection, k.id)
  }

  /** `clearDocumentTTL`. */
  function ClearTtl(t: Ttl, c: Collection, id: Id): Ttl {
    var k := DocKey(c, id);
    if k in t.byDoc then Ttl(t.byDoc - {k}, t.due - {DueKey(k, t.byDoc[k])}) else t
  }

  /** `setDocumentTTL` with a positive duration. */
  function SetTtl(t: Ttl, c: Collection, id: Id, e: Expiry): Ttl {
    var cleared := ClearTtl(t, c, id);
    Ttl(cleared.byDoc[DocKey(c, id) := e], cleared.due + {DueKey(DocKey(c, id), e)})
  }

  function KeyCollection(key: string): Option<Collection> {
    match ParseTtlIndexKey(key)
    case None => None
    case Some(entry) => Some(entry.collection)
  }

  /** `deleteTTLForCollectionTx`. */
  function DropTtl(t: Ttl, c: Collection): Ttl {
    Ttl(map k | k in t.byDoc && k.collection != c :: t.byDoc[k],
        set key | key in t.due && KeyCollection(key) != Some(c))
  }

  predicate GoodKey(k: DocKey) {
    ValidSegment(k.collection) && ValidSegment(k.id)
  }

  function DueKeys(byDoc: map<DocKey, Expiry>): set<string> {
    set k | k in byDoc :: DueKey(k, byDoc[k])
  }

  predicate GoodKeys(byDoc: map<DocKey, Expiry>) {
    forall k | k in byDoc :: GoodKey(k)
  }

  /** The tables are in exact bijection and mention only live documents. */
  ghost predicate TtlInv(docs: map<Collection, map<Id, Doc>>, t: Ttl) {
    && t.due == DueKeys(t.byDoc)
    && GoodKeys(t.byDoc)
    && (forall k | k in t.byDoc :: Live(docs, k.collection, k.id))
  }

  lemma DueKeyParses(k: DocKey, e: Expiry)
    requires GoodKey(k)
    ensures ParseTtlIndexKey(DueKey(k, e)) == Some(TtlEntry(e, k.collection, k.id))
  {
    ValidSegmentHasNoSeparators(k.collection);
    TtlIndexKeyRoundTrip(e, k.collection, k.id);
  }

  lemma DueKeyInjective(k: DocKey, e: Expiry, k': DocKey, e': Expiry)
    requires GoodKey(k) && GoodKey(k') && DueKey(k, e) == DueKey(k', e')
    ensures k == k' && e == e'
  {
    DueKeyParses(k, e);
    DueKeyParses(k', e');
  }

  lemma DueKeysRemove(byDoc: map<DocKey, Expiry>, k: DocKey)
    requires GoodKeys(byDoc) && k in byDoc
    ensures DueKeys(byDoc - {k}) == DueKeys(byDoc) - {DueKey(k, byDoc[k])}
  {
    forall j | j in byDoc && j != k ensures DueKey(j, byDoc[j]) != DueKey(k, byDoc[k]) {
      if DueKey(j, byDoc[j]) == DueKey(k, byDoc[k]) { DueKeyInjective(j, byDoc[j], k, byDoc[k]); }
    }
    var byDoc' := byDoc - {k};
    assert forall j | j in byDoc' :: j in byDoc && byDoc'[j] == byDoc[j];
    assert forall j | j in byDoc && j != k :: j in byDoc' && byDoc'[j] == byDoc[j];
  }

  lemma DueKeysAdd(byDoc: map<DocKey, Expiry>, k: DocKey, e: Expiry)
    requires k !in byDoc
    ensures DueKeys(byDoc[k := e]) == DueKeys(byDoc) + {DueKey(k, e)}
  {
    var byDoc' := byDoc[k := e];
    assert forall j | j in byDoc :: j in byDoc' && byDoc'[j] == byDoc[j];
    assert k in byDoc' && byDoc'[k] == e;
  }

  /** Both tables change together, and nothing else in them does. */
  lemma ClearTtlKeepsInv(docs: map<Collection, map<Id, Doc>>, t: Ttl, c: Collection, id: Id)
    requires TtlInv(docs, t)
    ensures TtlInv(docs, ClearTtl(t, c, id))
    ensures ClearTtl(t, c, id).byDoc == t.byDoc - {DocKey(c, id)}
  {
    if DocKey(c, id) in t.byDoc {
      DueKeysRemove(t.byDoc, DocKey(c, id));
    }
  }

  lemma SetTtlKeepsInv(docs: map<Collection, map<Id, Doc>>, t: Ttl, c: Collection, id: Id, e: Expiry)
    requires TtlInv(docs, t) && ValidSegment(c) && ValidSegment(id) && Live(docs, c, id)
    ensures TtlInv(docs, SetTtl(t, c, id, e))
    ensures SetTtl(t, c, id, e).byDoc == t.byDoc[DocKey(c, id) := e]
  {
    ClearTtlKeepsInv(docs, t, c, id);
    DueKeysAdd(ClearTtl(t, c, id).byDoc, DocKey(c, id), e);
  }

  lemma DropTtlKeepsInv(docs: map<Collection, map<Id, Doc>>, t: Ttl, c: Collection)
    requires TtlInv(docs, t)
    ensures TtlInv(docs - {c}, DropTtl(t, c))
  {
    DueKeysDrop(t.byDoc, c);
  }

  lemma DueKeysDrop(byDoc: map<DocKey, Expiry>, c: Collection)
    requires GoodKeys(byDoc)
    ensures DueKeys(map k | k in byDoc && k.collection != c :: byDoc[k])
            == set key | key in DueKeys(byDoc) && KeyCollection(key) != Some(c)
  {
    forall k | k in byDoc ensures KeyCollection(DueKey(k, byDoc[k])) == Some(k.collection) {
      DueKeyParses(k, byDoc[k]);
    }
    var byDoc' := map k | k in byDoc && k.collection != c :: byDoc[k];
    var left := set key | key in DueKeys(byDoc) && KeyCollection(key) != Some(c);
    assert DueKeys(byDoc') <= left;
    assert left <= DueKeys(byDoc') by {
      forall key | key in left ensures key in DueKeys(byDoc') {
        var k :| k in byDoc && DueKey(k, byDoc[k]) == key;
        assert k in byDoc';
      }
    }
  }
}
