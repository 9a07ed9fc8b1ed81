/** The full-text tables: what indexing, unindexing and erasing do to postings and reverse
    entries, and the invariant that ties them to the documents. */
module FullText {
  import opened ByteOrder
  import opened Documents
  import opened Storage

  /** `indexFTS`. */
  function IndexText(r: Rules, t: Fts, c: Collection, id: Id, d: Doc): Fts {
    if c !in t.config then t
    else
      var tokens := r.docTokens(d, t.config[c]);
      if tokens == {} then t
      else t.(reverse := t.reverse[DocKey(c, id) := tokens],
              forward := t.forward + set w | w in tokens :: Posting(c, w, id))
  }

  /** `unindexFTS`. */
  function UnindexText(t: Fts, c: Collection, id: Id): Fts {
    var key := DocKey(c, id);
    if key !in t.reverse then t
    else t.(forward := t.forward - (set w | w in t.reverse[key] :: Posting(c, w, id)),
            reverse := t.reverse - {key})
  }

  /** `deleteFTSForCollectionTx`: configuration, postings and reverse entries. */
  function DropText(t: Fts, c: Collection): Fts {
    Fts(t.config - {c},
        (set p | p in t.forward && p.collection != c),
        map k | k in t.reverse && k.collection != c :: t.reverse[k])
  }

  /** The first transaction of `SetFTSConfig`. */
  function Configure(t: Fts, c: Collection, fields: seq<Field>): Fts {
    var dropped := DropText(t, c);
    dropped.(config := dropped.config[c := fields])
  }

  ghost predicate MirrorTables(t: Fts) {
    && (forall p | p in t.forward :: DocKey(p.collection, p.id) in t.reverse && p.token in t.reverse[DocKey(p.collection, p.id)])
    && (forall k, w | k in t.reverse && w in t.reverse[k] :: Posting(k.collection, w, k.id) in t.forward)
  }

  ghost predicate ReverseCurrent(r: Rules, docs: map<Collection, map<Id, Doc>>, t: Fts) {
    forall k | k in t.reverse ::
      && Live(docs, k.collection, k.id)
      && k.collection in t.config
      && t.reverse[k] == r.docTokens(docs[k.collection][k.id], t.config[k.collection])
      && t.reverse[k] != {}
  }

  ghost predicate TextInv(r: Rules, docs: map<Collection, map<Id, Doc>>, t: Fts) {
    MirrorTables(t) && ReverseCurrent(r, docs, t)
  }

  /** The full-text part of any document step. */
  function Retext(r: Rules, t: Fts, c: Collection, id: Id, was: Option<Doc>, now: Option<Doc>): Fts {
    var out := if was.Some? then UnindexText(t, c, id) else t;
    if now.Some? then IndexText(r, out, c, id, now.value) else out
  }

  /** The document has tokens under the collection's current configuration. */
  ghost predicate Searchable(r: Rules, t: Fts, c: Collection, d: Doc) {
    c in t.config && r.docTokens(d, t.config[c]) != {}
  }

  lemma UnindexTextKeepsMirror(t: Fts, c: Collection, id: Id)
    requires MirrorTables(t)
    ensures var t' := UnindexText(t, c, id);
            MirrorTables(t') && DocKey(c, id) !in t'.reverse
            && (forall k | k != DocKey(c, id) :: (k in t.reverse <==> k in t'.reverse)
                                                && (k in t.reverse ==> t'.reverse[k] == t.reverse[k]))
  {
    var t' := UnindexText(t, c, id);
    forall k, w | k in t'.reverse && w in t'.reverse[k] ensures Posting(k.collection, w, k.id) in t'.forward {
      assert Posting(k.collection, w, k.id) in t.forward;
    }
  }

  /** Indexing keeps both tables in step, over a missing entry or one that already agrees: the
      backfill may revisit a document a writer has indexed. */
  lemma IndexTextKeepsMirror(r: Rules, t: Fts, c: Collection, id: Id, d: Doc)
    requires MirrorTables(t)
    requires DocKey(c, id) in t.reverse ==> c in t.config && t.reverse[DocKey(c, id)] == r.docTokens(d, t.config[c])
    ensures MirrorTables(IndexText(r, t, c, id, d))
  {
    var t' := IndexText(r, t, c, id, d);
    forall k, w | k in t'.reverse && w in t'.reverse[k] ensures Posting(k.collection, w, k.id) in t'.forward {
      if k != DocKey(c, id) { assert Posting(k.collection, w, k.id) in t.forward; }
    }
  }

  lemma UnindexKeepsInv(r: Rules, docs: map<Collection, map<Id, Doc>>, t: Fts, c: Collection, id: Id)
    requires TextInv(r, docs, t) && c in docs
    ensures TextInv(r, docs[c := docs[c] - {id}], UnindexText(t, c, id))
  {
    UnindexTextKeepsMirror(t, c, id);
    var docs', t' := docs[c := docs[c] - {id}], UnindexText(t, c, id);
    forall k | k in t'.reverse
      ensures Live(docs', k.collection, k.id) && docs'[k.collection][k.id] == docs[k.collection][k.id]
    {
      assert k in t.reverse;
      assert k.collection == c ==> k.id != id by { assert k == DocKey(k.collection, k.id); }
    }
  }

  lemma IndexKeepsInv(r: Rules, docs: map<Collection, map<Id, Doc>>, t: Fts, c: Collection, id: Id, d: Doc)
    requires TextInv(r, docs, t) && c in docs && id !in docs[c]
    ensures TextInv(r, docs[c := docs[c][id := d]], IndexText(r, t, c, id, d))
  {
    assert DocKey(c, id) !in t.reverse;
    IndexTextKeepsMirror(r, t, c, id, d);
  }

  /** Every document step keeps the full-text invariant and leaves the document indexed
      exactly when it has tokens. */
  lemma RetextKeepsInv(r: Rules, docs: map<Collection, map<Id, Doc>>, t: Fts, c: Collection, id: Id, now: Option<Doc>)
    requires TextInv(r, docs, t) && c in docs
    ensures var was := if id in docs[c] then Some(docs[c][id]) else None;
            var t' := Retext(r, t, c, id, was, now);
            && TextInv(r, docs[c := Replaced(docs[c], id, now)], t') && t'.config == t.config
            && (DocKey(c, id) in t'.reverse <==> now.Some? && Searchable(r, t, c, now.value))
            && (forall k | k != DocKey(c, id) :: k in t'.reverse <==> k in t.reverse)
  {
    var was := if id in docs[c] then Some(docs[c][id]) else None;
    var out := if was.Some? then UnindexText(t, c, id) else t;
    var bare := docs[c := docs[c] - {id}];
    UnindexKeepsInv(r, docs, t, c, id);
    assert was.None? ==> docs[c] - {id} == docs[c];
    assert was.None? ==> bare == docs;
    assert DocKey(c, id) !in out.reverse;
    if now.Some? {
      IndexKeepsInv(r, bare, out, c, id, now.value);
      assert (docs[c] - {id})[id := now.value] == docs[c][id := now.value];
      assert bare[c := bare[c][id := now.value]] == docs[c := docs[c][id := now.value]];
    }
  }

  lemma DropTextKeepsInv(r: Rules, docs: map<Collection, map<Id, Doc>>, t: Fts, c: Collection)
    requires TextInv(r, docs, t)
    ensures TextInv(r, docs, DropText(t, c)) && TextInv(r, docs - {c}, DropText(t, c))
    ensures forall fields :: TextInv(r, docs, Configure(t, c, fields))
  {
    var t' := DropText(t, c);
    assert MirrorTables(t') by {
      forall k, w | k in t'.reverse && w in t'.reverse[k] ensures Posting(k.collection, w, k.id) in t'.forward {
        assert Posting(k.collection, w, k.id) in t.forward;
      }
    }
  }

  /** The backfill's ETag-checked step: reindexing a document from its current content. */
  lemma BackfillKeepsInv(r: Rules, docs: map<Collection, map<Id, Doc>>, t: Fts, c: Collection, id: Id)
    requires TextInv(r, docs, t) && Live(docs, c, id)
    ensures var t' := IndexText(r, t, c, id, docs[c][id]);
            && TextInv(r, docs, t') && t'.config == t.config
            && (Searchable(r, t, c, docs[c][id]) ==> DocKey(c, id) in t'.reverse)
            && (forall k | k in t.reverse :: k in t'.reverse)
  {
    IndexTextKeepsMirror(r, t, c, id, docs[c][id]);
  }
}
