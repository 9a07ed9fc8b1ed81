/** Configuring full-text search and each step of a backfill keep the invariant of the engine. */
module BackfillProofs {
  import opened ByteOrder
  import opened Documents
  import opened Keys
  import opened Storage
  import opened SecondaryIndex
  import opened FullText
  import opened TtlTables
  import opened EventLog
  import opened Writes
  import opened Invariants
  import opened PurgeProofs
  import opened Maintenance
  import opened Engine
  import opened WriterProofs
  import opened BuildProofs

  lemma ConfigureStepKeepsInv(r: Rules, pairs: set<Pair>, s: System, c: Collection, fields: seq<Field>)
    requires SystemInv(r, pairs, s)
    ensures SystemInv(r, pairs, Next(r, s, ConfigureStep(c, fields)))
  {
    var o := ConfigureText(s.db, c, fields);
    if o.Done? {
      var s' := Next(r, s, ConfigureStep(c, fields));
      DropTextKeepsInv(r, s.db.docs, s.db.fts, c);
      BuildersKept(pairs, s, o.db);
      ConfigureFillers(r, s, c, fields);
    }
  }

  lemma ConfigureFillers(r: Rules, s: System, c: Collection, fields: seq<Field>)
    requires FillersInv(r, s) && ConfigureText(s.db, c, fields).Done?
    ensures FillersInv(r, Next(r, s, ConfigureStep(c, fields)))
  {
    var s' := Next(r, s, ConfigureStep(c, fields));
    forall d | d != c ensures TextSafe(r, s.db, s'.db, d) {
      assert forall id :: DocKey(d, id) in s'.db.fts.reverse <==> DocKey(d, id) in s.db.fts.reverse;
    }
    FillersKept(r, s, s'.(fillers := s.fillers));
  }

  lemma FillerMoves(r: Rules, pairs: set<Pair>, s: System, i: nat, f: Filler)
    requires SystemInv(r, pairs, s) && i < |s.fillers|
    requires f.collection == s.fillers[i].collection && f.reign == s.fillers[i].reign
    requires TextBatchSound(f.batch)
    requires f.reign == Reign(s, f.collection) ==> TextCovered(r, s.db, f)
    ensures SystemInv(r, pairs, s.(fillers := s.fillers[i := f]))
  {
  }

  lemma CollectedTextCovers(r: Rules, db: Db, f: Filler, f': Filler)
    requires TextCovered(r, db, f) && f.batch == [] && !f.done
    requires f'.collection == f.collection
    requires if f.collection in db.docs then TextBatchOf(db.docs[f.collection], f.pos, f'.pos, f'.done, f'.batch)
             else f'.batch == []
    ensures TextCovered(r, db, f')
  {
    var missing := MissingFromText(r, db, f.collection);
    forall id | id in missing && Passed(f'.pos, f'.done, id)
      ensures TextEntry(id, ComputeETag(missing[id]), missing[id]) in f'.batch
    {
      assert !Passed(f.pos, false, id);
    }
  }

  lemma CollectTextKeepsInv(r: Rules, pairs: set<Pair>, s: System, i: nat, pos: Option<Id>, done: bool, texts: seq<TextEntry>)
    requires SystemInv(r, pairs, s) && Enabled(r, pairs, s, CollectText(i, pos, done, texts))
    ensures SystemInv(r, pairs, Next(r, s, CollectText(i, pos, done, texts)))
  {
    var f := s.fillers[i];
    var f' := f.(pos := pos, done := done, batch := texts);
    if f.reign == Reign(s, f.collection) {
      CollectedTextCovers(r, s.db, f, f');
    }
    FillerMoves(r, pairs, s, i, f');
  }

  /** Applying a text batch keeps the tables in step, loses nothing, and indexes every entry
      whose document is still the one that was read. */
  lemma {:induction false} ApplyTextKeepsInv(r: Rules, db: Db, c: Collection, batch: seq<TextEntry>)
    requires TextInv(r, db.docs, db.fts) && TextBatchSound(batch)
    ensures var db' := ApplyTextBatch(r, db, c, batch);
            && db' == db.(fts := db'.fts) && db'.fts.config == db.fts.config
            && TextInv(r, db.docs, db'.fts)
            && (forall k | k in db.fts.reverse :: k in db'.fts.reverse)
            && (forall e | e in batch && Live(db.docs, c, e.id) && db.docs[c][e.id] == e.doc && Searchable(r, db.fts, c, e.doc) ::
                  DocKey(c, e.id) in db'.fts.reverse)
  {
    if c in db.docs && batch != [] {
      var front, e := batch[..|batch| - 1], batch[|batch| - 1];
      ApplyTextKeepsInv(r, db, c, front);
      assert batch == front + [e];
      if e.id in db.docs[c] && ComputeETag(db.docs[c][e.id]) == e.etag {
        BackfillKeepsInv(r, db.docs, ApplyTextBatch(r, db, c, front).fts, c, e.id);
      }
    }
  }

  lemma ApplyTextDone(r: Rules, pairs: set<Pair>, s: System, i: nat, db': Db)
    requires SystemInv(r, pairs, s) && i < |s.fillers|
    requires db' == ApplyTextBatch(r, s.db, s.fillers[i].collection, s.fillers[i].batch)
    ensures SystemInv(r, pairs, s.(db := db')) && db' == s.db.(fts := db'.fts)
    ensures s.fillers[i].reign == Reign(s, s.fillers[i].collection) ==> TextCovered(r, db', s.fillers[i].(batch := []))
  {
    var f := s.fillers[i];
    ApplyTextKeepsInv(r, s.db, f.collection, f.batch);
    ApplyTextConsiderate(r, s.db, db');
    ConsiderateKeepsInv(r, pairs, s, db');
    ApplyTextCovers(r, s.db, db', f);
  }

  lemma ApplyTextStepKeepsInv(r: Rules, pairs: set<Pair>, s: System, i: nat)
    requires SystemInv(r, pairs, s) && i < |s.fillers|
    ensures SystemInv(r, pairs, Next(r, s, ApplyText(i)))
  {
    var f := s.fillers[i];
    var db' := ApplyTextBatch(r, s.db, f.collection, f.batch);
    ApplyTextDone(r, pairs, s, i, db');
    FillerMoves(r, pairs, s.(db := db'), i, f.(batch := []));
  }

  lemma ApplyTextConsiderate(r: Rules, db: Db, db': Db)
    requires db' == db.(fts := db'.fts) && db'.fts.config == db.fts.config
    requires forall k | k in db.fts.reverse :: k in db'.fts.reverse
    ensures Considerate(r, db, db')
  {
    forall p | p in db.indexes.building ensures MissingFromIndex(db', p) == MissingFromIndex(db, p) {}
    forall c ensures TextSafe(r, db, db', c) {}
  }

  lemma ApplyTextCovers(r: Rules, db: Db, db': Db, f: Filler)
    requires db' == db.(fts := db'.fts) && db'.fts.config == db.fts.config
    requires TextSafe(r, db, db', f.collection)
    requires forall e | e in f.batch && Live(db.docs, f.collection, e.id) && db.docs[f.collection][e.id] == e.doc
                        && Searchable(r, db.fts, f.collection, e.doc) :: DocKey(f.collection, e.id) in db'.fts.reverse
    ensures TextCovered(r, db, f) ==> TextCovered(r, db', f.(batch := []))
  {
    if TextCovered(r, db, f) {
      var missing, missing' := MissingFromText(r, db, f.collection), MissingFromText(r, db', f.collection);
      forall id | id in missing && Passed(f.pos, f.done, id) ensures id !in missing' {
        assert TextEntry(id, ComputeETag(missing[id]), missing[id]) in f.batch;
      }
      assert forall id | id in missing' :: id in missing;
    }
  }
}
