/** Each step of an index build, and each way to end one, keeps the invariant of the engine. */
module BuildProofs {
  import opened ByteOrder
  import opened Documents
  import opened Keys
  import opened Storage
  import opened SecondaryIndex
  import opened FullText
  import opened TtlTables
  import opened EventLog
  import opened Writes
  import opened Invariants
  import opened PurgeProofs
  import opened Maintenance
  import opened Outbox
  import opened Engine
  import opened WriterProofs

  lemma TextUntouched(r: Rules, db: Db, db': Db)
    requires db'.docs == db.docs && db'.fts == db.fts
    ensures forall c :: TextSafe(r, db, db', c)
  {
    forall c ensures TextSafe(r, db, db', c) {
      assert MissingFromText(r, db', c) == MissingFromText(r, db, c);
    }
  }

  lemma BuildersKept(pairs: set<Pair>, s: System, db': Db)
    requires BuildersInv(pairs, s) && IndexSafe(s.db, db')
    ensures BuildersInv(pairs, s.(db := db'))
  {
    forall p | InUse(db'.indexes, p) ensures p in pairs {
      assert InUse(s.db.indexes, p);
    }
  }

  lemma FillersKept(r: Rules, s: System, s': System)
    requires FillersInv(r, s) && s'.fillers == s.fillers
    requires forall c :: Reign(s, c) <= Reign(s', c)
    requires forall c | Reign(s', c) == Reign(s, c) :: TextSafe(r, s.db, s'.db, c)
    ensures FillersInv(r, s')
  {
    forall i | 0 <= i < |s'.fillers| && s'.fillers[i].reign == Reign(s', s'.fillers[i].collection)
      ensures TextCovered(r, s'.db, s'.fillers[i])
    {
      assert TextSafe(r, s.db, s'.db, s.fillers[i].collection);
    }
  }

  /** A considerate change of the database leaves builders and backfills as covered as before. */
  lemma ConsiderateKeepsInv(r: Rules, pairs: set<Pair>, s: System, db': Db)
    requires SystemInv(r, pairs, s) && DbInv(r, db') && Considerate(r, s.db, db')
    ensures SystemInv(r, pairs, s.(db := db'))
  {
    BuildersKept(pairs, s, db');
    FillersKept(r, s, s.(db := db'));
    CommitKeepsInv(WorkersOf(s), db'.events);
  }

  lemma DropCollectionDone(r: Rules, pairs: set<Pair>, s: System, c: Collection, s': System)
    requires SystemInv(r, pairs, s) && DeleteCollection(s.db, c).Done?
    requires s' == s.(db := DeleteCollection(s.db, c).db, reigns := s.reigns[c := Reign(s, c) + 1])
    ensures SystemInv(r, pairs, s')
  {
    DeleteCollectionKeepsInv(r, s.db, c);
    DropCollectionSafe(r, s.db, c);
    BuildersKept(pairs, s, s'.db);
    FillersKept(r, s, s');
  }

  lemma NextDropCollection(r: Rules, s: System, c: Collection)
    ensures Next(r, s, DropCollectionStep(c)) ==
            if DeleteCollection(s.db, c).Done?
            then s.(db := DeleteCollection(s.db, c).db, reigns := s.reigns[c := Reign(s, c) + 1])
            else s
  {
  }

  lemma DropCollectionOutcome(r: Rules, pairs: set<Pair>, s: System, c: Collection, s': System)
    requires SystemInv(r, pairs, s)
    requires s' == if DeleteCollection(s.db, c).Done?
                   then s.(db := DeleteCollection(s.db, c).db, reigns := s.reigns[c := Reign(s, c) + 1])
                   else s
    ensures SystemInv(r, pairs, s')
  {
    if DeleteCollection(s.db, c).Done? { DropCollectionDone(r, pairs, s, c, s'); }
  }

  lemma DropCollectionStepKeepsInv(r: Rules, pairs: set<Pair>, s: System, c: Collection)
    requires SystemInv(r, pairs, s)
    ensures SystemInv(r, pairs, Next(r, s, DropCollectionStep(c)))
  {
    NextDropCollection(r, s, c);
    DropCollectionOutcome(r, pairs, s, c, Next(r, s, DropCollectionStep(c)));
  }

  lemma DropCollectionSafe(r: Rules, db: Db, c: Collection)
    requires DbInv(r, db) && DeleteCollection(db, c).Done?
    ensures IndexSafe(db, DeleteCollection(db, c).db)
    ensures forall d | d != c :: TextSafe(r, db, DeleteCollection(db, c).db, d)
  {
    var db' := DeleteCollection(db, c).db;
    DropCollectionIndexSafe(db, c, db');
    forall d | d != c ensures TextSafe(r, db, db', d) {
      DropCollectionTextSafe(r, db, c, db', d);
    }
  }

  lemma DropCollectionTextSafe(r: Rules, db: Db, c: Collection, db': Db, d: Collection)
    requires db'.docs == db.docs - {c} && db'.fts == DropText(db.fts, c) && d != c
    ensures TextSafe(r, db, db', d)
  {
    assert DocsOf(db'.docs, d) == DocsOf(db.docs, d);
    assert forall id :: DocKey(d, id) in db'.fts.reverse <==> DocKey(d, id) in db.fts.reverse;
  }

  lemma DropCollectionIndexSafe(db: Db, c: Collection, db': Db)
    requires IndexInv(db.docs, db.indexes)
    requires db'.docs == db.docs - {c} && db'.indexes == DropCollection(db.indexes, c)
    ensures IndexSafe(db, db')
  {
    DropCollectionKeepsInv(db.docs, db.indexes, c);
    forall p | p in db'.indexes.building ensures MissingFromIndex(db', p) == MissingFromIndex(db, p) {
      assert InUse(db'.indexes, p) && InUse(db.indexes, p);
      assert p.collection != c;
    }
  }

  /** A step on the index tables alone, touching only the bucket of `p`, which then is not building. */
  lemma OtherBucketsSafe(r: Rules, pairs: set<Pair>, s: System, ix': Indexes, p: Pair)
    requires SystemInv(r, pairs, s) && InjectiveNames(pairs) && p in pairs
    requires ix'.building <= s.db.indexes.building - {p}
    requires forall q | IsReady(ix', q) :: IsReady(s.db.indexes, q)
    requires ix'.buckets == s.db.indexes.buckets - {Name(p)}
    ensures Considerate(r, s.db, s.db.(indexes := ix'))
  {
    var db' := s.db.(indexes := ix');
    forall q | q in ix'.building ensures MissingFromIndex(db', q) == MissingFromIndex(s.db, q) {
      assert InUse(s.db.indexes, q);
      assert Name(q) != Name(p);
    }
    TextUntouched(r, s.db, db');
  }

  lemma UniqueName(pairs: set<Pair>, s: System, p: Pair)
    requires BuildersInv(pairs, s) && InjectiveNames(pairs) && p in pairs
    ensures forall q | InUse(s.db.indexes, q) && Name(q) == Name(p) :: q == p
  {
  }

  lemma DropOutcome(ix: Indexes, p: Pair, ix': Indexes)
    requires ix' == if IsReady(ix, p) then DropReady(ix, p) else DropBuild(ix, p)
    ensures ix'.building == ix.building - {p} && ix'.buckets == ix.buckets - {Name(p)}
    ensures forall q | IsReady(ix', q) :: IsReady(ix, q)
  {
  }

  lemma DropIndexSafe(r: Rules, pairs: set<Pair>, s: System, p: Pair, ix': Indexes)
    requires SystemInv(r, pairs, s) && InjectiveNames(pairs) && p in pairs
    requires ix' == if IsReady(s.db.indexes, p) then DropReady(s.db.indexes, p) else DropBuild(s.db.indexes, p)
    ensures DbInv(r, s.db.(indexes := ix')) && Considerate(r, s.db, s.db.(indexes := ix'))
  {
    UniqueName(pairs, s, p);
    DropOutcome(s.db.indexes, p, ix');
    DropKeepsInv(s.db.docs, s.db.indexes, ix', p);
    DropTidy(s.db.indexes, p);
    IndexOnlyChange(r, s.db, ix');
    OtherBucketsSafe(r, pairs, s, ix', p);
  }

  lemma DropIndexStepKeepsInv(r: Rules, pairs: set<Pair>, s: System, p: Pair)
    requires SystemInv(r, pairs, s) && InjectiveNames(pairs) && p in pairs
    ensures SystemInv(r, pairs, Next(r, s, DropIndexStep(p)))
  {
    var o := DeleteIndex(s.db, p);
    if o.Done? {
      DropIndexSafe(r, pairs, s, p, o.db.indexes);
      ConsiderateKeepsInv(r, pairs, s, o.db);
    }
  }

  lemma AbortStepKeepsInv(r: Rules, pairs: set<Pair>, s: System, p: Pair)
    requires SystemInv(r, pairs, s) && InjectiveNames(pairs) && p in s.builders
    ensures SystemInv(r, pairs, Next(r, s, AbortIndex(p)))
  {
    var db' := AbortIndexBuild(s.db, p);
    DropIndexSafe(r, pairs, s, p, db'.indexes);
    ConsiderateKeepsInv(r, pairs, s, db');
    BuilderGone(r, pairs, s.(db := db'), p);
  }

  lemma BuilderGone(r: Rules, pairs: set<Pair>, s: System, p: Pair)
    requires SystemInv(r, pairs, s) && p !in s.db.indexes.building
    ensures SystemInv(r, pairs, s.(builders := s.builders - {p}))
  {
    FillersKept(r, s, s.(builders := s.builders - {p}));
  }

  lemma StartBuilders(pairs: set<Pair>, s: System, p: Pair)
    requires BuildersInv(pairs, s) && InjectiveNames(pairs) && p in pairs && p !in s.builders
    requires StartIndexBuild(s.db, p).Done?
    ensures BuildersInv(pairs, s.(db := StartIndexBuild(s.db, p).db, builders := s.builders[p := Builder(None, false, [], false)]))
  {
    var db' := StartIndexBuild(s.db, p).db;
    forall q | q in s.db.indexes.building ensures MissingFromIndex(db', q) == MissingFromIndex(s.db, q) {
      assert InUse(s.db.indexes, q) && Name(q) != Name(p);
    }
    forall q | InUse(db'.indexes, q) ensures q in pairs {
      assert q == p || InUse(s.db.indexes, q);
    }
    assert forall q :: IsReady(db'.indexes, q) == IsReady(s.db.indexes, q);
  }

  lemma StartDone(r: Rules, pairs: set<Pair>, s: System, p: Pair, s': System)
    requires SystemInv(r, pairs, s) && InjectiveNames(pairs) && p in pairs && p !in s.builders
    requires StartIndexBuild(s.db, p).Done?
    requires s' == s.(db := s.db.(indexes := StartBuild(s.db.indexes, p)), builders := s.builders[p := Builder(None, false, [], false)])
    ensures SystemInv(r, pairs, s')
  {
    UniqueName(pairs, s, p);
    StartBuildKeepsInv(s.db.docs, s.db.indexes, p);
    StartBuildTidy(s.db.indexes, p);
    IndexOnlyChange(r, s.db, s'.db.indexes);
    StartBuilders(pairs, s, p);
    TextUntouched(r, s.db, s'.db);
    FillersKept(r, s, s');
  }

  lemma StartStepKeepsInv(r: Rules, pairs: set<Pair>, s: System, p: Pair)
    requires SystemInv(r, pairs, s) && InjectiveNames(pairs) && p in pairs && p !in s.builders
    ensures SystemInv(r, pairs, Next(r, s, StartIndex(p)))
  {
    if StartIndexBuild(s.db, p).Done? {
      StartDone(r, pairs, s, p, Next(r, s, StartIndex(p)));
    }
  }

  /** The pass over a snapshot batch covers what it moves past. */
  lemma CollectedCovers(db: Db, p: Pair, b: Builder, b': Builder)
    requires IndexCovered(db, p, b) && b.batch == [] && !b.done && p.collection in db.docs
    requires IndexBatchOf(db.docs[p.collection], p.field, b.pos, b'.pos, b'.done, b'.batch)
    ensures IndexCovered(db, p, b')
  {
    var missing := MissingFromIndex(db, p);
    forall id | id in missing && Passed(b'.pos, b'.done, id)
      ensures p.field in missing[id] && IndexEntry(id, ComputeETag(missing[id]), EncodeIndexValue(missing[id][p.field])) in b'.batch
    {
      assert !Passed(b.pos, b.done, id);
    }
  }

  lemma BuilderMoves(r: Rules, pairs: set<Pair>, s: System, p: Pair, b: Builder)
    requires SystemInv(r, pairs, s) && p in s.builders && BatchSound(p, b.batch)
    requires p in s.db.indexes.building ==> IndexCovered(s.db, p, b)
    ensures SystemInv(r, pairs, s.(builders := s.builders[p := b]))
  {
    FillersKept(r, s, s.(builders := s.builders[p := b]));
  }

  lemma CollectStepKeepsInv(r: Rules, pairs: set<Pair>, s: System, p: Pair, pos: Option<Id>, done: bool, batch: seq<IndexEntry>)
    requires SystemInv(r, pairs, s) && Enabled(r, pairs, s, CollectIndex(p, pos, done, batch))
    ensures SystemInv(r, pairs, Next(r, s, CollectIndex(p, pos, done, batch)))
  {
    var b := Builder(pos, done, batch, false);
    if p in s.db.indexes.building { CollectedCovers(s.db, p, s.builders[p], b); }
    assert BatchSound(p, batch);
    BuilderMoves(r, pairs, s, p, b);
  }

  // ---------------------------------------------------------------- applying an index batch

  lemma ApplyBatchBucket(docs: map<Id, Doc>, p: Pair, batch: seq<IndexEntry>)
    requires BatchSound(p, batch)
    ensures Unchanged(docs, batch) <= Indexed(docs, p.field)
  {
    forall e | e in batch && e.id in docs && ComputeETag(docs[e.id]) == e.etag
      ensures Entry(e.value, e.id) in Indexed(docs, p.field)
    {
      assert EntryOf(p.field, e.id, docs[e.id]) == {Entry(e.value, e.id)};
      assert Entry(e.value, e.id) in EntryOf(p.field, e.id, docs[e.id]);
    }
  }

  lemma GrowBucketKeepsInv(docs: map<Collection, map<Id, Doc>>, ix: Indexes, p: Pair, more: set<Entry>, ix': Indexes)
    requires IndexInv(docs, ix) && NoOrphans(ix) && p in ix.building && Name(p) in ix.buckets
    requires more <= Indexed(DocsOf(docs, p.collection), p.field)
    requires ix' == ix.(buckets := ix.buckets[Name(p) := ix.buckets[Name(p)] + more])
    ensures IndexInv(docs, ix') && NoOrphans(ix')
  {
    assert forall q :: InUse(ix', q) == InUse(ix, q) && IsReady(ix', q) == IsReady(ix, q);
    assert InUse(ix, p);
    forall q | InUse(ix, q) && q != p ensures ix'.buckets[Name(q)] == ix.buckets[Name(q)] {
      assert Name(q) != Name(p);
    }
    StaysTidy(ix, ix');
  }

  /** The ETag check lets only still-true entries in; the index stays free of stale ones. */
  lemma ApplyBatchKeepsIndexInv(pairs: set<Pair>, s: System, p: Pair)
    requires IndexInv(s.db.docs, s.db.indexes) && NoOrphans(s.db.indexes) && BuildersInv(pairs, s)
    requires p in s.builders && ApplyIndexBatch(s.db, p, s.builders[p].batch).Done?
    ensures var db' := ApplyIndexBatch(s.db, p, s.builders[p].batch).db;
            IndexInv(db'.docs, db'.indexes) && NoOrphans(db'.indexes)
  {
    var docs, batch := s.db.docs[p.collection], s.builders[p].batch;
    ApplyBatchBucket(docs, p, batch);
    GrowBucketKeepsInv(s.db.docs, s.db.indexes, p, Unchanged(docs, batch), ApplyIndexBatch(s.db, p, batch).db.indexes);
  }

  lemma IndexOnlyChange(r: Rules, db: Db, ix': Indexes)
    requires DbInv(r, db) && IndexInv(db.docs, ix') && NoOrphans(ix')
    ensures DbInv(r, db.(indexes := ix'))
  {
  }

  lemma BuilderFails(r: Rules, pairs: set<Pair>, s: System, p: Pair)
    requires SystemInv(r, pairs, s) && p in s.builders
    ensures SystemInv(r, pairs, s.(builders := s.builders[p := s.builders[p].(failed := true)]))
  {
    FillersKept(r, s, s.(builders := s.builders[p := s.builders[p].(failed := true)]));
  }

  lemma ApplyDone(r: Rules, pairs: set<Pair>, s: System, p: Pair, o: Outcome)
    requires SystemInv(r, pairs, s) && p in s.builders
    requires o == ApplyIndexBatch(s.db, p, s.builders[p].batch) && o.Done?
    ensures SystemInv(r, pairs, Applied(s, p, o.db))
  {
    ApplyBatchKeepsIndexInv(pairs, s, p);
    IndexOnlyChange(r, s.db, o.db.indexes);
    ApplyCovers(pairs, s, p, Applied(s, p, o.db));
    TextUntouched(r, s.db, o.db);
    FillersKept(r, s, Applied(s, p, o.db));
  }

  lemma NextApply(r: Rules, s: System, p: Pair)
    requires p in s.builders
    ensures var o := ApplyIndexBatch(s.db, p, s.builders[p].batch);
            Next(r, s, ApplyIndex(p)) ==
            if o.Done? then Applied(s, p, o.db) else s.(builders := s.builders[p := s.builders[p].(failed := true)])
  {
  }

  lemma ApplyOutcome(r: Rules, pairs: set<Pair>, s: System, p: Pair, o: Outcome, s': System)
    requires SystemInv(r, pairs, s) && p in s.builders
    requires o == ApplyIndexBatch(s.db, p, s.builders[p].batch)
    requires s' == if o.Done? then Applied(s, p, o.db) else s.(builders := s.builders[p := s.builders[p].(failed := true)])
    ensures SystemInv(r, pairs, s')
  {
    if o.Done? {
      ApplyDone(r, pairs, s, p, o);
    } else {
      BuilderFails(r, pairs, s, p);
    }
  }

  lemma ApplyStepKeepsInv(r: Rules, pairs: set<Pair>, s: System, p: Pair)
    requires SystemInv(r, pairs, s) && p in s.builders && !s.builders[p].failed
    ensures SystemInv(r, pairs, Next(r, s, ApplyIndex(p)))
  {
    NextApply(r, s, p);
    ApplyOutcome(r, pairs, s, p, ApplyIndexBatch(s.db, p, s.builders[p].batch), Next(r, s, ApplyIndex(p)));
  }

  lemma ApplyCovers(pairs: set<Pair>, s: System, p: Pair, s': System)
    requires BuildersInv(pairs, s) && DistinctNames(s.db.indexes)
    requires p in s.builders && ApplyIndexBatch(s.db, p, s.builders[p].batch).Done?
    requires s' == Applied(s, p, ApplyIndexBatch(s.db, p, s.builders[p].batch).db)
    ensures BuildersInv(pairs, s')
  {
    var b := s.builders[p];
    assert InUse(s.db.indexes, p);
    forall q | q in s.db.indexes.building && q != p ensures MissingFromIndex(s'.db, q) == MissingFromIndex(s.db, q) {
      assert InUse(s.db.indexes, q);
      assert Name(q) != Name(p);
    }
    var missing, missing' := MissingFromIndex(s.db, p), MissingFromIndex(s'.db, p);
    assert forall id | id in missing' :: id in missing && missing'[id] == missing[id];
    forall id | id in missing && Passed(b.pos, b.done, id) ensures id !in missing' {
      var e := IndexEntry(id, ComputeETag(missing[id]), EncodeIndexValue(missing[id][p.field]));
      assert e in b.batch;
      assert Entry(e.value, id) in Unchanged(s.db.docs[p.collection], b.batch);
    }
    forall q | InUse(s'.db.indexes, q) ensures q in pairs {
      assert InUse(s.db.indexes, q);
    }
  }

  // ---------------------------------------------------------------- promotion

  lemma NothingMissing(db: Db, p: Pair)
    requires Name(p) in db.indexes.buckets && MissingFromIndex(db, p) == map[]
    ensures Indexed(DocsOf(db.docs, p.collection), p.field) <= db.indexes.buckets[Name(p)]
  {
    var docs, f := DocsOf(db.docs, p.collection), p.field;
    forall id | id in docs && f in docs[id] ensures Entry(EncodeIndexValue(docs[id][f]), id) in db.indexes.buckets[Name(p)] {
      assert id !in MissingFromIndex(db, p);
    }
  }

  lemma NothingLeftToIndex(pairs: set<Pair>, s: System, p: Pair)
    requires BuildersInv(pairs, s) && p in s.builders && p in s.db.indexes.building
    requires s.builders[p].done && s.builders[p].batch == []
    ensures MissingFromIndex(s.db, p) == map[]
  {
    assert forall id | id in MissingFromIndex(s.db, p) :: Passed(s.builders[p].pos, s.builders[p].done, id);
  }

  lemma FinishDone(r: Rules, pairs: set<Pair>, s: System, p: Pair, s': System)
    requires SystemInv(r, pairs, s) && p in s.builders && p in s.db.indexes.building && MissingFromIndex(s.db, p) == map[]
    requires s' == s.(db := s.db.(indexes := Promote(s.db.indexes, p)), builders := s.builders - {p})
    ensures SystemInv(r, pairs, s')
  {
    assert InUse(s.db.indexes, p);
    NothingMissing(s.db, p);
    PromoteKeepsInv(s.db.docs, s.db.indexes, p);
    PromoteTidy(s.db.indexes, p);
    IndexOnlyChange(r, s.db, s'.db.indexes);
    PromoteBuilders(pairs, s, p);
    TextUntouched(r, s.db, s'.db);
    FillersKept(r, s, s');
  }

  lemma FinishStepKeepsInv(r: Rules, pairs: set<Pair>, s: System, p: Pair)
    requires SystemInv(r, pairs, s) && Enabled(r, pairs, s, FinishIndex(p))
    ensures SystemInv(r, pairs, Next(r, s, FinishIndex(p)))
  {
    if FinishIndexBuild(s.db, p).Done? {
      NothingLeftToIndex(pairs, s, p);
      FinishDone(r, pairs, s, p, Next(r, s, FinishIndex(p)));
    } else {
      BuilderFails(r, pairs, s, p);
    }
  }

  lemma PromoteBuilders(pairs: set<Pair>, s: System, p: Pair)
    requires BuildersInv(pairs, s) && p in s.db.indexes.building
    ensures BuildersInv(pairs, s.(db := s.db.(indexes := Promote(s.db.indexes, p)), builders := s.builders - {p}))
  {
    var ix, ix' := s.db.indexes, Promote(s.db.indexes, p);
    assert forall q :: IsReady(ix', q) <==> IsReady(ix, q) || q == p;
    var db' := s.db.(indexes := ix');
    forall q | q in ix'.building ensures MissingFromIndex(db', q) == MissingFromIndex(s.db, q) {}
    forall q | InUse(ix', q) ensures q in pairs { assert InUse(ix, q); }
  }
}
