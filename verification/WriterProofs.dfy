/** Every document write leaves the builders and backfills running beside it nothing new to do. */
module WriterProofs {
  import opened ByteOrder
  import opened Documents
  import opened Keys
  import opened Storage
  import opened SecondaryIndex
  import opened FullText
  import opened TtlTables
  import opened EventLog
  import opened Writes
  import opened Invariants
  import opened PurgeProofs
  import opened Maintenance
  import opened Engine

  lemma ReindexMissing(db: Db, db': Db, c: Collection, id: Id, now: Option<Doc>, p: Pair)
    requires DistinctNames(db.indexes) && NoStale(db.docs, db.indexes) && c in db.docs
    requires db'.docs == db.docs[c := Replaced(db.docs[c], id, now)]
    requires db'.indexes == Reindex(db.indexes, c, id, Current(db, c, id), now)
    requires p in db.indexes.building
    ensures Within(MissingFromIndex(db', p), MissingFromIndex(db, p))
  {
    assert InUse(db.indexes, p);
    ReindexBucket(db.indexes, c, id, Current(db, c, id), now, p);
  }

  lemma RetextMissing(r: Rules, db: Db, db': Db, c: Collection, id: Id, now: Option<Doc>, d: Collection)
    requires DbInv(r, db) && c in db.docs
    requires db'.docs == db.docs[c := Replaced(db.docs[c], id, now)]
    requires db'.fts == Retext(r, db.fts, c, id, Current(db, c, id), now)
    ensures Within(MissingFromText(r, db', d), MissingFromText(r, db, d))
  {
    RetextKeepsInv(r, db.docs, db.fts, c, id, now);
    forall i | i in MissingFromText(r, db', d)
      ensures i in MissingFromText(r, db, d) && db'.docs[d][i] == db.docs[d][i]
    {
      assert DocKey(d, i) == DocKey(c, id) <==> d == c && i == id;
    }
  }

  lemma MutateConsiderate(r: Rules, db: Db, c: Collection, id: Id, now: Option<Doc>, ttl: TtlChange, time: Time)
    requires DbInv(r, db) && c in db.docs && (now.None? ==> id in db.docs[c])
    ensures Considerate(r, db, Mutate(r, db, c, id, now, ttl, time))
  {
    var db' := Mutate(r, db, c, id, now, ttl, time);
    forall p | p in db.indexes.building ensures Within(MissingFromIndex(db', p), MissingFromIndex(db, p)) {
      ReindexMissing(db, db', c, id, now, p);
    }
    forall d ensures TextSafe(r, db, db', d) {
      RetextMissing(r, db, db', c, id, now, d);
    }
    DefinitionsUntouched(r, db, c, id, now);
    RecordExtends(db.events, if now.None? then Delete else if Current(db, c, id).None? then Insert else Update, c, id, now, time);
  }

  /** A document step changes no index definition. */
  lemma DefinitionsUntouched(r: Rules, db: Db, c: Collection, id: Id, now: Option<Doc>)
    ensures var ix' := Reindex(db.indexes, c, id, Current(db, c, id), now);
            ix'.building == db.indexes.building && ix'.ready == db.indexes.ready
  {
  }

  lemma EnsureConsiderate(r: Rules, db: Db, c: Collection)
    ensures Considerate(r, db, EnsureCollection(db, c))
  {
    assert forall d :: DocsOf(EnsureCollection(db, c).docs, d) == DocsOf(db.docs, d);
  }

  lemma {:induction false} TxFoldConsiderate(r: Rules, db: Db, ops: seq<TxOp>, now: Time)
    requires DbInv(r, db) && TxFold(r, db, ops, now).Committed?
    ensures Considerate(r, db, TxFold(r, db, ops, now).db)
  {
    if ops != [] {
      var before, op := TxFold(r, db, ops[..|ops| - 1], now).db, ops[|ops| - 1];
      TxFoldConsiderate(r, db, ops[..|ops| - 1], now);
      TxFoldKeepsInv(r, db, ops[..|ops| - 1], now);
      TxStepConsiderate(r, before, op, now);
      ConsiderateTransitive(r, db, before, TxStep(r, before, op, now).db);
    }
  }

  lemma EnsureAndMutate(r: Rules, db: Db, c: Collection, id: Id, now: Option<Doc>, ttl: TtlChange, time: Time)
    requires DbInv(r, db) && (now.None? ==> Live(EnsureCollection(db, c).docs, c, id))
    ensures Considerate(r, db, Mutate(r, EnsureCollection(db, c), c, id, now, ttl, time))
  {
    var db1 := EnsureCollection(db, c);
    EnsureCollectionKeepsInv(r, db, c);
    EnsureConsiderate(r, db, c);
    MutateConsiderate(r, db1, c, id, now, ttl, time);
    ConsiderateTransitive(r, db, db1, Mutate(r, db1, c, id, now, ttl, time));
  }

  lemma TxStepConsiderate(r: Rules, db: Db, op: TxOp, now: Time)
    requires DbInv(r, db) && TxStep(r, db, op, now).Done?
    ensures Considerate(r, db, TxStep(r, db, op, now).db)
  {
    var c, id := op.collection, op.id;
    var docs := EnsureCollection(db, c).docs[c];
    match op.action
    case OpPut => EnsureAndMutate(r, db, c, id, Some(op.body.fields), Clear, now);
    case OpPatch => EnsureAndMutate(r, db, c, id, Some(docs[id] + Patched(op.body)), Keep, now);
    case OpDelete => EnsureAndMutate(r, db, c, id, None, Clear, now);
  }

  lemma {:induction false} PurgeConsiderate(r: Rules, db: Db, now: Time)
    requires DbInv(r, db)
    ensures Considerate(r, db, Purge(r, db, now))
    decreases |db.ttl.due|
  {
    if db.ttl.due != {} {
      var k, next := PurgeTurn(r, db, now);
      if db.ttl.byDoc[k] <= now {
        MutateKeepsInv(r, db, k.collection, k.id, None, Clear, now);
        MutateConsiderate(r, db, k.collection, k.id, None, Clear, now);
        PurgeConsiderate(r, next, now);
        ConsiderateTransitive(r, db, next, Purge(r, next, now));
      }
    }
  }

  lemma CreateConsiderate(r: Rules, db: Db, c: Collection, body: Body, candidates: seq<Id>, expireIn: Lifetime, now: Time)
    requires DbInv(r, db) && |candidates| == ID_ATTEMPTS
    ensures Considerate(r, db, After(db, Create(r, db, c, body, candidates, expireIn, now)))
  {
    if Create(r, db, c, body, candidates, expireIn, now).Done? {
      var id := FreshId(EnsureCollection(db, c).docs[c], candidates).value;
      EnsureAndMutate(r, db, c, id, Some(body.fields), if expireIn.Lasts? then ExpireAt(now + expireIn.seconds) else Keep, now);
    }
  }

  lemma PutConsiderate(r: Rules, db: Db, c: Collection, id: Id, body: Body, expected: Expected, expireIn: Lifetime, now: Time)
    requires DbInv(r, db)
    ensures Considerate(r, db, After(db, Put(r, db, c, id, body, expected, expireIn, now)))
  {
    if Put(r, db, c, id, body, expected, expireIn, now).Done? {
      EnsureAndMutate(r, db, c, id, Some(body.fields), ExpiryFor(now, expireIn), now);
    }
  }

  lemma PatchConsiderate(r: Rules, db: Db, c: Collection, id: Id, body: Body, expected: Expected, now: Time)
    requires DbInv(r, db)
    ensures Considerate(r, db, After(db, Patch(r, db, c, id, body, expected, now)))
  {
    if Patch(r, db, c, id, body, expected, now).Done? {
      MutateConsiderate(r, db, c, id, Some(db.docs[c][id] + Patched(body)), Keep, now);
    }
  }

  lemma RemoveConsiderate(r: Rules, db: Db, c: Collection, id: Id, expected: Expected, now: Time)
    requires DbInv(r, db)
    ensures Considerate(r, db, After(db, Remove(r, db, c, id, expected, now)))
  {
    if Remove(r, db, c, id, expected, now).Done? {
      MutateConsiderate(r, db, c, id, None, Clear, now);
    }
  }

  lemma TransactionKeepsInv(r: Rules, db: Db, ops: seq<TxOp>, now: Time)
    requires DbInv(r, db)
    ensures var db' := AfterTx(db, Transact(r, db, ops, now));
            DbInv(r, db') && (Faithful(db) ==> Faithful(db')) && Considerate(r, db, db')
  {
    TransactKeepsInv(r, db, ops, now);
    if Transact(r, db, ops, now).Committed? { TxFoldConsiderate(r, db, ops, now); }
  }

  lemma CreateCollectionIsConsiderate(r: Rules, db: Db, c: Collection)
    requires DbInv(r, db)
    ensures var db' := After(db, CreateCollection(db, c));
            DbInv(r, db') && (Faithful(db) ==> Faithful(db')) && Considerate(r, db, db')
  {
    CreateCollectionKeepsInv(r, db, c);
    EnsureConsiderate(r, db, c);
  }

  /** Every document write keeps the database invariant and is considerate. */
  lemma WriteKeepsInv(r: Rules, db: Db, w: Write, now: Time)
    requires DbInv(r, db) && ValidWrite(w)
    ensures DbInv(r, Written(r, db, w, now)) && (Faithful(db) ==> Faithful(Written(r, db, w, now)))
    ensures Considerate(r, db, Written(r, db, w, now))
  {
    match w
    case DoCreate(c, body, candidates, expireIn) =>
      CreateKeepsInv(r, db, c, body, candidates, expireIn, now);
      CreateConsiderate(r, db, c, body, candidates, expireIn, now);
    case DoPut(c, id, body, expected, expireIn) =>
      PutKeepsInv(r, db, c, id, body, expected, expireIn, now);
      PutConsiderate(r, db, c, id, body, expected, expireIn, now);
    case DoPatch(c, id, body, expected) =>
      PatchKeepsInv(r, db, c, id, body, expected, now);
      PatchConsiderate(r, db, c, id, body, expected, now);
    case DoRemove(c, id, expected) =>
      RemoveKeepsInv(r, db, c, id, expected, now);
      RemoveConsiderate(r, db, c, id, expected, now);
    case DoTransaction(ops) => TransactionKeepsInv(r, db, ops, now);
    case DoPurge =>
      PurgeKeepsInv(r, db, now);
      PurgeConsiderate(r, db, now);
    case DoCreateCollection(c) => CreateCollectionIsConsiderate(r, db, c);
  }
}
