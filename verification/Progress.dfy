/** That the engine's steps achieve something: what each leaves behind, and that an index build or a
    search configuration that nobody disturbs ends with a complete index or complete postings. */
module Progress {
  import opened ByteOrder
  import opened Documents
  import opened Keys
  import opened Storage
  import opened SecondaryIndex
  import opened FullText
  import opened Writes
  import opened Invariants
  import opened PurgeProofs
  import opened Maintenance
  import opened MaintenanceEffects
  import opened Effects
  import opened Outbox
  import opened Engine
  import opened BackfillProofs
  import opened Configurations
  import opened Runs

  /** A deletion step ends the use of the index it names and of no other. */
  lemma DropIndexTakesEffect(r: Rules, s: System, p: Pair)
    ensures var ix := Next(r, s, DropIndexStep(p)).db.indexes;
            !InUse(ix, p) && forall q | q != p :: InUse(ix, q) <==> InUse(s.db.indexes, q)
  {
    DeleteIndexErases(s.db, p);
  }

  lemma DropCollectionTakesEffect(r: Rules, s: System, c: Collection)
    ensures var docs := Next(r, s, DropCollectionStep(c)).db.docs;
            && (ValidCollection(c) ==> c !in docs)
            && forall d, id | d != c || !ValidCollection(c) :: Live(docs, d, id) <==> Live(s.db.docs, d, id)
  {
    DeleteCollectionRefuses(s.db, c);
  }

  lemma WriteTakesEffect(r: Rules, s: System, w: Write, now: Time)
    requires ValidWrite(w)
    ensures forall pairs :: Enabled(r, pairs, s, WriteStep(w, now))
    ensures var s' := Next(r, s, WriteStep(w, now));
            s'.db == Written(r, s.db, w, now) && s' == s.(db := s'.db)
  {
  }

  /** What the calls of the engine achieve: a put, patch, create, delete or transaction that succeeds
      leaves its results, a purge removes what has expired, a created collection exists. */
  lemma CallsTakeEffect(r: Rules, db: Db, w: Write, now: Time, c: Collection, id: Id)
    requires DbInv(r, db) && ValidWrite(w)
    ensures var db' := Written(r, db, w, now);
            match w
            case DoPut(d, j, body, expected, expireIn) =>
              Put(r, db, d, j, body, expected, expireIn, now).Done? ==> body.Object? && Current(db', d, j) == Some(body.fields)
            case DoPatch(d, j, body, expected) =>
              var o := Patch(r, db, d, j, body, expected, now);
              o.Done? ==> o.doc.Some? && Current(db', d, j) == o.doc
            case DoRemove(d, j, expected) => Remove(r, db, d, j, expected, now).Done? ==> Current(db', d, j) == None
            case DoCreate(d, body, candidates, expireIn) =>
              Create(r, db, d, body, candidates, expireIn, now).Done? ==>
                body.Object? && exists j :: j in candidates && !Live(db.docs, d, j) && Current(db', d, j) == Some(body.fields)
            case DoTransaction(ops) =>
              var o := Transact(r, db, ops, now);
              o.Committed? ==> |o.results| == |ops| && Current(db', c, id) == LastResult(ops, o.results, c, id, Current(db, c, id))
            case DoPurge => Live(db'.docs, c, id) <==> Live(db.docs, c, id) && !Expired(db.ttl, DocKey(c, id), now)
            case DoCreateCollection(d) => ValidCollection(d) ==> d in db'.docs
  {
    match w
    case DoPut(d, j, body, expected, expireIn) => PutWrites(r, db, d, j, body, expected, expireIn, now);
    case DoPatch(d, j, body, expected) => PatchWrites(r, db, d, j, body, expected, now);
    case DoRemove(d, j, expected) => RemoveWrites(r, db, d, j, expected, now);
    case DoCreate(d, body, candidates, expireIn) =>
      var i := CreateWrites(r, db, d, body, candidates, expireIn, now);
      if Create(r, db, d, body, candidates, expireIn, now).Done? { assert candidates[i] in candidates; }
    case DoTransaction(ops) =>
      if Transact(r, db, ops, now).Committed? { LastOperationWins(r, db, ops, now, c, id); }
    case DoPurge => PurgeRemovesExactlyTheExpired(r, db, now);
    case DoCreateCollection(d) => CreateCollectionMakes(db, d);
  }

  lemma WebhookTakesEffect(r: Rules, s: System, m: Move)
    requires Possible(WorkersOf(s), m)
    ensures WorkersOf(Next(r, s, WebhookStep(m))) == Apply(WorkersOf(s), m)
  {
  }

  // ---------------------------------------------------------------- an undisturbed build

  lemma StartedBuild(r: Rules, pairs: set<Pair>, s: System, p: Pair, s1: System)
    requires Enabled(r, pairs, s, StartIndex(p)) && s1 == Next(r, s, StartIndex(p))
    requires p.collection in s.db.docs && !InUse(s.db.indexes, p)
    ensures s1.db.docs == s.db.docs && p in s1.db.indexes.building && !IsReady(s1.db.indexes, p)
    ensures p in s1.builders && s1.builders[p] == Builder(None, false, [], false)
  {
    StartIndexBuildStarts(s.db, p);
  }

  lemma CollectedBuild(r: Rules, pairs: set<Pair>, s: System, p: Pair, pos: Option<Id>, batch: seq<IndexEntry>, s1: System)
    requires Enabled(r, pairs, s, CollectIndex(p, pos, true, batch)) && s1 == Next(r, s, CollectIndex(p, pos, true, batch))
    ensures s1.db == s.db && p in s1.builders && s1.builders[p] == Builder(pos, true, batch, false)
  {
  }

  lemma AppliedBuild(r: Rules, s: System, p: Pair, s1: System)
    requires p in s.builders && s1 == Next(r, s, ApplyIndex(p))
    requires p in s.db.indexes.building && p.collection in s.db.docs && Name(p) in s.db.indexes.buckets
    ensures s1.db.docs == s.db.docs && p in s1.db.indexes.building
    ensures p in s1.builders && s1.builders[p] == s.builders[p].(batch := [])
  {
    ApplyIndexBatchAdds(s.db, p, s.builders[p].batch);
  }

  lemma FinishedBuild(r: Rules, s: System, p: Pair, s1: System)
    requires p in s.builders && s1 == Next(r, s, FinishIndex(p))
    requires p in s.db.indexes.building && p.collection in s.db.docs
    ensures s1.db.docs == s.db.docs && IsReady(s1.db.indexes, p) && p !in s1.builders
  {
    FinishIndexBuildLists(s.db, p);
  }

  /** A `CreateIndex` on an unused pair of an existing collection that nobody disturbs, here with one
      batch for the whole scan, ends with the index listed and holding exactly what it should. */
  lemma UndisturbedBuildSucceeds(r: Rules, pairs: set<Pair>, s: System, p: Pair, pos: Option<Id>, batch: seq<IndexEntry>)
    returns (s1: System, s2: System, s3: System, s4: System)
    requires SystemInv(r, pairs, s) && InjectiveNames(pairs) && p in pairs && p !in s.builders
    requires p.collection in s.db.docs && !InUse(s.db.indexes, p)
    requires IndexBatchOf(s.db.docs[p.collection], p.field, None, pos, true, batch)
    ensures Enabled(r, pairs, s, StartIndex(p)) && s1 == Next(r, s, StartIndex(p))
    ensures Enabled(r, pairs, s1, CollectIndex(p, pos, true, batch)) && s2 == Next(r, s1, CollectIndex(p, pos, true, batch))
    ensures if batch == [] then s3 == s2 else Enabled(r, pairs, s2, ApplyIndex(p)) && s3 == Next(r, s2, ApplyIndex(p))
    ensures Enabled(r, pairs, s3, FinishIndex(p)) && s4 == Next(r, s3, FinishIndex(p))
    ensures s4.db.docs == s.db.docs && IsReady(s4.db.indexes, p) && p !in s4.builders
    ensures Name(p) in s4.db.indexes.buckets && s4.db.indexes.buckets[Name(p)] == Indexed(s.db.docs[p.collection], p.field)
  {
    s1 := Next(r, s, StartIndex(p));
    StartedBuild(r, pairs, s, p, s1);
    StepKeepsInv(r, pairs, s, StartIndex(p));
    s2 := Next(r, s1, CollectIndex(p, pos, true, batch));
    CollectedBuild(r, pairs, s1, p, pos, batch, s2);
    StepKeepsInv(r, pairs, s1, CollectIndex(p, pos, true, batch));
    s3, s4 := AppliedAndFinished(r, pairs, s2, p);
  }

  lemma AppliedAndFinished(r: Rules, pairs: set<Pair>, s: System, p: Pair) returns (s3: System, s4: System)
    requires SystemInv(r, pairs, s) && InjectiveNames(pairs) && p in s.builders
    requires !s.builders[p].failed && s.builders[p].done && p in s.db.indexes.building && p.collection in s.db.docs
    ensures if s.builders[p].batch == [] then s3 == s else Enabled(r, pairs, s, ApplyIndex(p)) && s3 == Next(r, s, ApplyIndex(p))
    ensures Enabled(r, pairs, s3, FinishIndex(p)) && s4 == Next(r, s3, FinishIndex(p))
    ensures s4.db.docs == s.db.docs && IsReady(s4.db.indexes, p) && p !in s4.builders
    ensures Name(p) in s4.db.indexes.buckets && s4.db.indexes.buckets[Name(p)] == Indexed(s.db.docs[p.collection], p.field)
  {
    s3 := s;
    assert InUse(s.db.indexes, p);
    if s.builders[p].batch != [] {
      s3 := Next(r, s, ApplyIndex(p));
      AppliedBuild(r, s, p, s3);
      StepKeepsInv(r, pairs, s, ApplyIndex(p));
    }
    s4 := Next(r, s3, FinishIndex(p));
    FinishedBuild(r, s3, p, s4);
    StepKeepsInv(r, pairs, s3, FinishIndex(p));
  }

  // ---------------------------------------------------------------- an undisturbed configuration

  /** A `SetFTSConfig` that nobody disturbs, here with one batch for the whole scan, ends with a
      posting for exactly every token that a document of the collection has in the fields asked for. */
  lemma UndisturbedConfigurationSucceeds(r: Rules, pairs: set<Pair>, s: System, c: Collection, fields: seq<Field>,
      pos: Option<Id>, texts: seq<TextEntry>) returns (s1: System, s2: System, s3: System)
    requires SystemInv(r, pairs, s) && InjectiveNames(pairs) && ConfigInv(s)
    requires c in s.db.docs && ValidCollection(c) && fields != [] && forall f | f in fields :: ValidField(f)
    requires TextBatchOf(s.db.docs[c], None, pos, true, texts)
    ensures Enabled(r, pairs, s, ConfigureStep(c, fields)) && s1 == Next(r, s, ConfigureStep(c, fields))
    ensures Enabled(r, pairs, s1, CollectText(|s.fillers|, pos, true, texts))
            && s2 == Next(r, s1, CollectText(|s.fillers|, pos, true, texts))
    ensures if texts == [] then s3 == s2 else Enabled(r, pairs, s2, ApplyText(|s.fillers|)) && s3 == Next(r, s2, ApplyText(|s.fillers|))
    ensures s3.db.docs == s.db.docs
    ensures forall id, w :: Posting(c, w, id) in s3.db.fts.forward
                       <==> Live(s.db.docs, c, id) && w in r.docTokens(s.db.docs[c][id], fields)
  {
    var i := |s.fillers|;
    s1 := Next(r, s, ConfigureStep(c, fields));
    ConfigureTextStores(s.db, c, fields);
    ConfigureOutcome(r, s, c, fields, s1);
    StepKeepsInv(r, pairs, s, ConfigureStep(c, fields));
    StepKeepsConfig(r, pairs, s, ConfigureStep(c, fields));
    s2 := Next(r, s1, CollectText(i, pos, true, texts));
    CollectedText(r, s1, i, pos, texts, s2);
    StepKeepsInv(r, pairs, s1, CollectText(i, pos, true, texts));
    StepKeepsConfig(r, pairs, s1, CollectText(i, pos, true, texts));
    s3 := AppliedAndFilled(r, pairs, s2, i);
    forall id, w ensures Posting(c, w, id) in s3.db.fts.forward
                    <==> Live(s.db.docs, c, id) && w in r.docTokens(s.db.docs[c][id], fields)
    {
      FilledTextIsComplete(r, pairs, s3, i, id, w);
    }
  }

  lemma AppliedAndFilled(r: Rules, pairs: set<Pair>, s: System, i: nat) returns (s3: System)
    requires SystemInv(r, pairs, s) && InjectiveNames(pairs) && ConfigInv(s)
    requires i < |s.fillers| && s.fillers[i].done && IsLatest(s, i)
    ensures if s.fillers[i].batch == [] then s3 == s else Enabled(r, pairs, s, ApplyText(i)) && s3 == Next(r, s, ApplyText(i))
    ensures SystemInv(r, pairs, s3) && ConfigInv(s3) && Filled(s3, i) && s3.db.docs == s.db.docs
    ensures s3.fillers[i].collection == s.fillers[i].collection && s3.fillers[i].fields == s.fillers[i].fields
  {
    s3 := s;
    if s.fillers[i].batch != [] {
      s3 := Next(r, s, ApplyText(i));
      AppliedText(r, s, i, s3);
      StepKeepsInv(r, pairs, s, ApplyText(i));
      StepKeepsConfig(r, pairs, s, ApplyText(i));
    }
  }

  lemma CollectedText(r: Rules, s: System, i: nat, pos: Option<Id>, texts: seq<TextEntry>, s1: System)
    requires i < |s.fillers| && s1 == Next(r, s, CollectText(i, pos, true, texts))
    ensures s1.db == s.db && s1.reigns == s.reigns
    ensures s1.fillers == s.fillers[i := s.fillers[i].(pos := pos, done := true, batch := texts)]
  {
  }

  lemma AppliedText(r: Rules, s: System, i: nat, s1: System)
    requires i < |s.fillers| && s1 == Next(r, s, ApplyText(i)) && TextInv(r, s.db.docs, s.db.fts) && TextBatchSound(s.fillers[i].batch)
    ensures s1.db.docs == s.db.docs && s1.reigns == s.reigns
    ensures s1.fillers == s.fillers[i := s.fillers[i].(batch := [])]
  {
    ApplyTextKeepsInv(r, s.db, s.fillers[i].collection, s.fillers[i].batch);
  }
}
