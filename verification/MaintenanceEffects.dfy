/** What index builds, index deletions and search configurations leave behind, told without naming
    how it is computed. */
module MaintenanceEffects {
  import opened ByteOrder
  import opened Documents
  import opened Keys
  import opened Storage
  import opened SecondaryIndex
  import opened FullText
  import opened Writes
  import opened Invariants
  import opened Maintenance

  /** Nothing but the index tables changed. */
  ghost predicate OnlyIndexes(db: Db, db': Db) {
    db'.docs == db.docs && db'.counts == db.counts && db'.fts == db.fts && db'.ttl == db.ttl && db'.events == db.events
  }

  /** Nothing but the search tables changed. */
  ghost predicate OnlySearch(db: Db, db': Db) {
    db'.docs == db.docs && db'.counts == db.counts && db'.indexes == db.indexes && db'.ttl == db.ttl && db'.events == db.events
  }

  /** Every bucket but that of the pair is as it was. */
  ghost predicate OtherBuckets(ix: Indexes, ix': Indexes, p: Pair) {
    forall n | n != Name(p) :: (n in ix'.buckets <==> n in ix.buckets) && (n in ix.buckets ==> ix'.buckets[n] == ix.buckets[n])
  }

  /** Every pair but this one is ready, and under construction, exactly when it was. */
  ghost predicate OtherPairs(ix: Indexes, ix': Indexes, p: Pair) {
    forall q | q != p :: (IsReady(ix', q) <==> IsReady(ix, q)) && (q in ix'.building <==> q in ix.building)
  }

  /** The listed fields of other collections are as they were, in their order. */
  ghost predicate OtherListings(ix: Indexes, ix': Indexes, p: Pair) {
    forall d | d != p.collection :: ReadyFields(ix', d) == ReadyFields(ix, d)
  }

  // ---------------------------------------------------------------- index builds

  /** A build starts exactly on an unused pair of an existing collection, with an empty bucket. */
  lemma StartIndexBuildStarts(db: Db, p: Pair)
    ensures var o := StartIndexBuild(db, p);
            && (o == Fails(NotFound) <==> p.collection !in db.docs)
            && (o == Fails(AlreadyExists) <==> p.collection in db.docs && IsReady(db.indexes, p))
            && (o == Fails(BuildInProgress) <==> p.collection in db.docs && !IsReady(db.indexes, p) && p in db.indexes.building)
            && (o.Done? <==> p.collection in db.docs && !InUse(db.indexes, p))
            && (o.Done? ==> OnlyIndexes(db, o.db)
                            && OtherBuckets(db.indexes, o.db.indexes, p) && OtherPairs(db.indexes, o.db.indexes, p)
                            && OtherListings(db.indexes, o.db.indexes, p)
                            && p in o.db.indexes.building && !IsReady(o.db.indexes, p)
                            && Name(p) in o.db.indexes.buckets && o.db.indexes.buckets[Name(p)] == {})
  {
  }

  /** A batch adds to the pair's bucket exactly the entries whose document is still what was read. */
  lemma ApplyIndexBatchAdds(db: Db, p: Pair, batch: seq<IndexEntry>)
    ensures var o := ApplyIndexBatch(db, p, batch);
            && (o.Done? <==> p in db.indexes.building && p.collection in db.docs && Name(p) in db.indexes.buckets)
            && (o.Fails? ==> o.error == if p in db.indexes.building && p.collection !in db.docs then NotFound else NotBuilding)
            && (o.Done? ==> OnlyIndexes(db, o.db)
                            && o.db.indexes.ready == db.indexes.ready && o.db.indexes.building == db.indexes.building
                            && OtherBuckets(db.indexes, o.db.indexes, p) && Name(p) in o.db.indexes.buckets
                            && forall e :: e in o.db.indexes.buckets[Name(p)] <==>
                                 || e in db.indexes.buckets[Name(p)]
                                 || exists b :: b in batch && b.id == e.id && b.value == e.value
                                                && Current(db, p.collection, b.id) == Some(b.etag.content))
  {
    var o := ApplyIndexBatch(db, p, batch);
    if o.Done? {
      var docs := db.docs[p.collection];
      forall e ensures e in Unchanged(docs, batch) <==>
                         exists b :: b in batch && b.id == e.id && b.value == e.value && Current(db, p.collection, b.id) == Some(b.etag.content)
      {
        if b :| b in batch && b.id == e.id && b.value == e.value && Current(db, p.collection, b.id) == Some(b.etag.content) {
          assert ComputeETag(docs[b.id]) == b.etag && e == Entry(b.value, b.id);
        }
      }
    }
  }

  /** Finishing lists the field, after those listed before, and leaves no marker; entries stay. */
  lemma FinishIndexBuildLists(db: Db, p: Pair)
    ensures var o := FinishIndexBuild(db, p);
            && (o == Fails(NotFound) <==> p.collection !in db.docs)
            && (o == Fails(NotBuilding) <==> p.collection in db.docs && p !in db.indexes.building)
            && (o.Done? <==> p.collection in db.docs && p in db.indexes.building)
            && (o.Done? ==> OnlyIndexes(db, o.db) && o.db.indexes.buckets == db.indexes.buckets
                            && OtherPairs(db.indexes, o.db.indexes, p) && OtherListings(db.indexes, o.db.indexes, p)
                            && IsReady(o.db.indexes, p) && p !in o.db.indexes.building
                            && ReadyFields(db.indexes, p.collection) <= ReadyFields(o.db.indexes, p.collection)
                            && |ReadyFields(o.db.indexes, p.collection)|
                               == |ReadyFields(db.indexes, p.collection)| + if IsReady(db.indexes, p) then 0 else 1)
  {
  }

  /** Giving up leaves neither marker nor bucket, and touches no other pair and no listing. */
  lemma AbortIndexBuildErases(db: Db, p: Pair)
    ensures var db' := AbortIndexBuild(db, p);
            && OnlyIndexes(db, db') && db'.indexes.ready == db.indexes.ready
            && OtherBuckets(db.indexes, db'.indexes, p) && OtherPairs(db.indexes, db'.indexes, p)
            && p !in db'.indexes.building && Name(p) !in db'.indexes.buckets
  {
  }

  /** Deleting succeeds exactly on a pair in use, ready or under construction; afterwards it is in use
      no more and has no bucket, and every other pair keeps its use and its bucket. */
  lemma DeleteIndexErases(db: Db, p: Pair)
    ensures var o := DeleteIndex(db, p);
            && (o.Done? <==> InUse(db.indexes, p)) && (o.Fails? ==> o.error == NotFound)
            && (o.Done? ==> OnlyIndexes(db, o.db)
                            && OtherBuckets(db.indexes, o.db.indexes, p) && OtherPairs(db.indexes, o.db.indexes, p)
                            && OtherListings(db.indexes, o.db.indexes, p)
                            && !InUse(o.db.indexes, p) && p !in o.db.indexes.building && Name(p) !in o.db.indexes.buckets
                            && (DistinctNames(db.indexes) ==> forall q | InUse(db.indexes, q) && q != p && Name(q) in db.indexes.buckets ::
                                  Name(q) in o.db.indexes.buckets && o.db.indexes.buckets[Name(q)] == db.indexes.buckets[Name(q)]))
  {
  }

  // ---------------------------------------------------------------- full-text search

  /** Configuring stores exactly the requested fields, and starts over for the collection: no posting
      and no reverse entry of it is left; every other collection keeps its configuration and entries. */
  lemma ConfigureTextStores(db: Db, c: Collection, fields: seq<Field>)
    ensures var o := ConfigureText(db, c, fields);
            && (o.Done? <==> ValidCollection(c) && fields != [] && forall f | f in fields :: ValidField(f))
            && (o.Fails? ==> o.error == InvalidName)
            && (o.Done? ==> OnlySearch(db, o.db)
                            && c in o.db.fts.config && o.db.fts.config[c] == fields
                            && (forall d | d != c :: (d in o.db.fts.config <==> d in db.fts.config)
                                                     && (d in db.fts.config ==> o.db.fts.config[d] == db.fts.config[d]))
                            && (forall p :: p in o.db.fts.forward <==> p in db.fts.forward && p.collection != c)
                            && (forall k :: k in o.db.fts.reverse <==> k in db.fts.reverse && k.collection != c)
                            && (forall k | k in o.db.fts.reverse :: o.db.fts.reverse[k] == db.fts.reverse[k]))
  {
  }

  /** A batch indexes exactly the documents that are still what was read, by the configured fields. */
  lemma {:induction false} ApplyTextBatchIndexes(r: Rules, db: Db, c: Collection, batch: seq<TextEntry>)
    requires TextInv(r, db.docs, db.fts) && forall b | b in batch :: b.doc == b.etag.content
    ensures var db' := ApplyTextBatch(r, db, c, batch);
            && OnlySearch(db, db') && db'.fts.config == db.fts.config && TextInv(r, db.docs, db'.fts)
            && forall k :: k in db'.fts.reverse <==>
                 || k in db.fts.reverse
                 || (k.collection == c && c in db.fts.config && Batched(db, c, batch, k.id)
                     && r.docTokens(db.docs[c][k.id], db.fts.config[c]) != {})
  {
    if c in db.docs && batch != [] {
      var front, b := batch[..|batch| - 1], batch[|batch| - 1];
      assert b in batch && batch == front + [b];
      ApplyTextBatchIndexes(r, db, c, front);
      assert forall id :: Batched(db, c, batch, id) <==> Batched(db, c, front, id) || (id == b.id && Current(db, c, id) == Some(b.etag.content));
      if Current(db, c, b.id) == Some(b.etag.content) {
        BackfillKeepsInv(r, db.docs, ApplyTextBatch(r, db, c, front).fts, c, b.id);
      }
    }
  }

  /** The batch has read what the document still is. */
  ghost predicate Batched(db: Db, c: Collection, batch: seq<TextEntry>, id: Id) {
    Live(db.docs, c, id) && exists b :: b in batch && b.id == id && b.etag.content == db.docs[c][id]
  }

  // ---------------------------------------------------------------- encoded values

  /** Two values have one index key exactly when they are of one kind and print alike: text, numbers,
      truth values, null and nested values never meet. */
  lemma EncodesAlikeIff(v: Value, w: Value)
    ensures EncodeIndexValue(v) == EncodeIndexValue(w) <==>
            match v
            case Str(s) => w == Str(s)
            case Bool(b) => w == Bool(b)
            case Num(_, shown) => (w.Num? || w.NotANumber?) && w.shown == shown
            case NotANumber(shown) => (w.Num? || w.NotANumber?) && w.shown == shown
            case Null => w == Null
            case Other(shown) => w == Other(shown)
  {
    KeyOfKind(v);
    KeyOfKind(w);
  }

  function KindLetter(v: Value): char {
    match v
    case Str(_) => 's'
    case Bool(_) => 'b'
    case Num(_, _) => 'n'
    case NotANumber(_) => 'n'
    case Null => 'z'
    case Other(_) => 'u'
  }

  lemma KeyOfKind(v: Value)
    ensures |EncodeIndexValue(v)| >= 2 && EncodeIndexValue(v)[0] == KindLetter(v)
    ensures EncodeIndexValue(v)[2..] == match v
                                        case Str(s) => s
                                        case Bool(b) => if b then "true" else "false"
                                        case Null => "null"
                                        case _ => v.shown
  {
  }
}
