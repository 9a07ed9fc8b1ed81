/** Index builds and full-text backfill as steps of the abstract database. */
module Maintenance {
  import opened ByteOrder
  import opened Documents
  import opened Keys
  import opened Storage
  import opened SecondaryIndex
  import opened FullText
  import opened TtlTables
  import opened EventLog
  import opened Writes

  /** A document seen by the builder's snapshot: its id, its tag then, its encoded value then. */
  datatype IndexEntry = IndexEntry(id: Id, etag: ETag, value: string)

  datatype TextEntry = TextEntry(id: Id, etag: ETag, doc: Doc)

  /** `startIndexBuild`. */
  function StartIndexBuild(db: Db, p: Pair): Outcome {
    if p.collection !in db.docs then Fails(NotFound)
    else if IsReady(db.indexes, p) then Fails(AlreadyExists)
    else if p in db.indexes.building then Fails(BuildInProgress)
    else Done(db.(indexes := StartBuild(db.indexes, p)), None)
  }

  /** The entries of a batch whose document still has the content the snapshot saw. */
  function Unchanged(docs: map<Id, Doc>, batch: seq<IndexEntry>): set<Entry> {
    set e | e in batch && e.id in docs && ComputeETag(docs[e.id]) == e.etag :: Entry(e.value, e.id)
  }

  /** `applyIndexBackfillBatch`. */
  function ApplyIndexBatch(db: Db, p: Pair, batch: seq<IndexEntry>): Outcome {
    if p !in db.indexes.building then Fails(NotBuilding)
    else if p.collection !in db.docs then Fails(NotFound)
    else if Name(p) !in db.indexes.buckets then Fails(NotBuilding)
    else
      var bucket := db.indexes.buckets[Name(p)] + Unchanged(db.docs[p.collection], batch);
      Done(db.(indexes := db.indexes.(buckets := db.indexes.buckets[Name(p) := bucket])), None)
  }

  /** `finishIndexBuild`. */
  function FinishIndexBuild(db: Db, p: Pair): Outcome {
    if p.collection !in db.docs then Fails(NotFound)
    else if p !in db.indexes.building then Fails(NotBuilding)
    else if IsReady(db.indexes, p) then Done(db.(indexes := db.indexes.(building := db.indexes.building - {p})), None)
    else Done(db.(indexes := Promote(db.indexes, p)), None)
  }

  /** `abortIndexBuild`. */
  function AbortIndexBuild(db: Db, p: Pair): Db {
    db.(indexes := DropBuild(db.indexes, p))
  }

  /** `DeleteIndex`. */
  function DeleteIndex(db: Db, p: Pair): Outcome {
    if IsReady(db.indexes, p) then Done(db.(indexes := DropReady(db.indexes, p)), None)
    else if p in db.indexes.building then Done(db.(indexes := DropBuild(db.indexes, p)), None)
    else Fails(NotFound)
  }

  /** The configuring transaction of `SetFTSConfig`. */
  function ConfigureText(db: Db, c: Collection, fields: seq<Field>): Outcome {
    if !ValidCollection(c) || fields == [] || (exists f | f in fields :: !ValidField(f)) then Fails(InvalidName)
    else Done(db.(fts := Configure(db.fts, c, fields)), None)
  }

  /** `applyFTSBackfillBatch`. */
  function ApplyTextBatch(r: Rules, db: Db, c: Collection, batch: seq<TextEntry>): Db {
    if c !in db.docs || batch == [] then db
    else
      var before := ApplyTextBatch(r, db, c, batch[..|batch| - 1]);
      var e := batch[|batch| - 1];
      if e.id in db.docs[c] && ComputeETag(db.docs[c][e.id]) == e.etag
      then before.(fts := IndexText(r, before.fts, c, e.id, e.doc))
      else before
  }

  // ---------------------------------------------------------------- cursor windows

  /** A scan that stands after `pos` has passed the ids up to and including it. */
  predicate Passed(pos: Option<Id>, done: bool, id: Id) {
    done || (pos.Some? && !Lt(pos.value, id))
  }

  /** What one `collectIndexBackfillBatch` may return on a snapshot: every document with the
      field among the newly passed ids, tagged and encoded as stored, and nothing else. */
  ghost predicate IndexBatchOf(docs: map<Id, Doc>, f: Field, pos: Option<Id>, pos': Option<Id>, done: bool, batch: seq<IndexEntry>) {
    && (forall id | id in docs && f in docs[id] && !Passed(pos, false, id) && Passed(pos', done, id) ::
          IndexEntry(id, ComputeETag(docs[id]), EncodeIndexValue(docs[id][f])) in batch)
    && (forall e | e in batch :: e.id in docs && e.etag == ComputeETag(docs[e.id]) && EntryOf(f, e.id, docs[e.id]) == {Entry(e.value, e.id)})
  }

  /** What one `collectFTSBackfillBatch` may return. */
  ghost predicate TextBatchOf(docs: map<Id, Doc>, pos: Option<Id>, pos': Option<Id>, done: bool, batch: seq<TextEntry>) {
    && (forall id | id in docs && !Passed(pos, false, id) && Passed(pos', done, id) ::
          TextEntry(id, ComputeETag(docs[id]), docs[id]) in batch)
    && (forall e | e in batch :: e.id in docs && e.doc == docs[e.id] && e.etag == ComputeETag(e.doc))
  }

  // ---------------------------------------------------------------- what is still missing

  /** The document versions an index on the pair does not hold yet. */
  ghost function MissingFromIndex(db: Db, p: Pair): map<Id, Doc> {
    var docs, f := DocsOf(db.docs, p.collection), p.field;
    map id | id in docs && f in docs[id]
          && (Name(p) in db.indexes.buckets ==> Entry(EncodeIndexValue(docs[id][f]), id) !in db.indexes.buckets[Name(p)])
        :: docs[id]
  }

  /** The document versions with tokens that full-text search does not know yet. */
  ghost function MissingFromText(r: Rules, db: Db, c: Collection): map<Id, Doc> {
    var docs := DocsOf(db.docs, c);
    map id | id in docs && Searchable(r, db.fts, c, docs[id]) && DocKey(c, id) !in db.fts.reverse :: docs[id]
  }

  ghost predicate Within(a: map<Id, Doc>, b: map<Id, Doc>) {
    forall id | id in a :: id in b && a[id] == b[id]
  }

  /** No new build appears, nothing becomes ready, and no document version becomes missing from
      an index under construction that was not missing before. */
  ghost predicate IndexSafe(db: Db, db': Db) {
    && db'.indexes.building <= db.indexes.building
    && (forall p | IsReady(db'.indexes, p) :: IsReady(db.indexes, p))
    && (forall p | p in db'.indexes.building :: Within(MissingFromIndex(db', p), MissingFromIndex(db, p)))
  }

  ghost predicate TextSafe(r: Rules, db: Db, db': Db, c: Collection) {
    Within(MissingFromText(r, db', c), MissingFromText(r, db, c))
  }

  /** What every writer guarantees the builders, backfills and webhook workers running beside it. */
  ghost predicate Considerate(r: Rules, db: Db, db': Db) {
    IndexSafe(db, db') && (forall c :: TextSafe(r, db, db', c)) && Extends(db.events, db'.events)
  }

  lemma ConsiderateTransitive(r: Rules, a: Db, b: Db, c: Db)
    requires Considerate(r, a, b) && Considerate(r, b, c)
    ensures Considerate(r, a, c)
  {
    ExtendsTransitive(a.events, b.events, c.events);
    forall d ensures TextSafe(r, a, c, d) {
      assert TextSafe(r, a, b, d) && TextSafe(r, b, c, d);
    }
  }
}
