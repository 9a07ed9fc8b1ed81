/** The invariant of the whole database and its preservation by every document step. */
module Invariants {
  import opened ByteOrder
  import opened Documents
  import opened Keys
  import opened Storage
  import opened SecondaryIndex
  import opened FullText
  import opened TtlTables
  import opened EventLog
  import opened Writes

  /** A stored count is the number of documents, and belongs to an existing collection. */
  ghost predicate CountInv(docs: map<Collection, map<Id, Doc>>, counts: map<Collection, int>) {
    forall c | c in counts :: c in docs && counts[c] == |docs[c]|
  }

  ghost predicate DbInv(r: Rules, db: Db) {
    && IndexInv(db.docs, db.indexes) && NoOrphans(db.indexes)
    && TextInv(r, db.docs, db.fts)
    && TtlInv(db.docs, db.ttl)
    && CountInv(db.docs, db.counts)
    && LogInv(db.events)
  }

  /** Holds in every run without DeleteCollection. */
  ghost predicate Faithful(db: Db) {
    HistoryInv(db.docs, db.events.history)
  }

  lemma EmptyDbInv(r: Rules)
    ensures DbInv(r, EmptyDb) && Faithful(EmptyDb)
  {
  }

  /** In every state satisfying the invariant the count reported is the number of documents. */
  lemma CountIsExact(r: Rules, db: Db, c: Collection)
    requires DbInv(r, db)
    ensures EffectiveCount(db, c) == |DocsOf(db.docs, c)|
  {
  }

  lemma ReplacedSize(docs: map<Id, Doc>, id: Id, now: Option<Doc>)
    ensures |Replaced(docs, id, now)| ==
            |docs| + (if now.Some? && id !in docs then 1 else if now.None? && id in docs then -1 else 0)
  {
    var docs' := Replaced(docs, id, now);
    assert |docs'| == |docs'.Keys| && |docs| == |docs.Keys|;
    if now.Some? {
      assert docs'.Keys == docs.Keys + {id};
    } else {
      assert docs'.Keys == docs.Keys - {id};
    }
  }

  lemma CountedKeepsInv(r: Rules, db: Db, c: Collection, id: Id, now: Option<Doc>, ttl: TtlChange, time: Time)
    requires CountInv(db.docs, db.counts) && c in db.docs
    requires now.None? ==> id in db.docs[c]
    ensures CountInv(Mutate(r, db, c, id, now, ttl, time).docs, Mutate(r, db, c, id, now, ttl, time).counts)
    ensures now.None? ==> EffectiveCount(db, c) - 1 >= 0
  {
    ReplacedSize(db.docs[c], id, now);
    if now.None? { assert db.docs[c] != map[]; }
  }

  lemma RetimeKeepsInv(docs: map<Collection, map<Id, Doc>>, t: Ttl, c: Collection, id: Id, now: Option<Doc>, ttl: TtlChange)
    requires TtlInv(docs, t) && c in docs
    requires ttl.ExpireAt? ==> ValidNames(c, id) && now.Some?
    requires now.None? ==> ttl.Clear?
    ensures TtlInv(docs[c := Replaced(docs[c], id, now)], Retime(t, c, id, ttl))
  {
    var docs' := docs[c := Replaced(docs[c], id, now)];
    ClearTtlKeepsInv(docs, t, c, id);
    if now.Some? {
      assert TtlInv(docs', t);
      ClearTtlKeepsInv(docs', t, c, id);
      if ttl.ExpireAt? { SetTtlKeepsInv(docs', t, c, id, ttl.at); }
    } else {
      var t' := ClearTtl(t, c, id);
      forall k | k in t'.byDoc ensures Live(docs', k.collection, k.id) {
        assert k.collection == c ==> k.id != id by { assert k == DocKey(k.collection, k.id); }
      }
    }
  }

  /** Every document step keeps every table right. */
  lemma MutateKeepsInv(r: Rules, db: Db, c: Collection, id: Id, now: Option<Doc>, ttl: TtlChange, time: Time)
    requires DbInv(r, db) && c in db.docs
    requires now.None? ==> id in db.docs[c] && ttl.Clear?
    requires ttl.ExpireAt? ==> ValidNames(c, id) && now.Some?
    ensures DbInv(r, Mutate(r, db, c, id, now, ttl, time))
    ensures Faithful(db) ==> Faithful(Mutate(r, db, c, id, now, ttl, time))
  {
    var was := Current(db, c, id);
    var action := if now.None? then Delete else if was.None? then Insert else Update;
    ReindexKeepsInv(db.docs, db.indexes, c, id, now);
    ReindexTidy(db.indexes, c, id, was, now);
    RetextKeepsInv(r, db.docs, db.fts, c, id, now);
    RetimeKeepsInv(db.docs, db.ttl, c, id, now, ttl);
    CountedKeepsInv(r, db, c, id, now, ttl, time);
    RecordKeepsLog(db.events, action, c, id, now, time);
    if Faithful(db) {
      HistoryStep(db.docs, db.events.history, Event(db.events.last + 1, action, c, id, now));
    }
  }

  lemma EmptyBucketIndexes(docs: map<Collection, map<Id, Doc>>, ix: Indexes, c: Collection)
    requires IndexInv(docs, ix) && c !in docs
    ensures IndexInv(docs[c := map[]], ix)
  {
    var docs' := docs[c := map[]];
    assert forall p | InUse(ix, p) :: p.collection != c && DocsOf(docs', p.collection) == DocsOf(docs, p.collection);
  }

  lemma EmptyBucketText(r: Rules, docs: map<Collection, map<Id, Doc>>, t: Fts, c: Collection)
    requires TextInv(r, docs, t) && c !in docs
    ensures TextInv(r, docs[c := map[]], t)
  {
  }

  lemma EmptyBucketHistory(docs: map<Collection, map<Id, Doc>>, history: seq<Event>, c: Collection)
    requires HistoryInv(docs, history) && c !in docs
    ensures HistoryInv(docs[c := map[]], history)
  {
    assert forall d, id :: Live(docs[c := map[]], d, id) <==> Live(docs, d, id);
  }

  lemma EnsureCollectionKeepsInv(r: Rules, db: Db, c: Collection)
    requires DbInv(r, db)
    ensures DbInv(r, EnsureCollection(db, c))
    ensures Faithful(db) ==> Faithful(EnsureCollection(db, c))
  {
    if c !in db.docs {
      EmptyBucketIndexes(db.docs, db.indexes, c);
      EmptyBucketText(r, db.docs, db.fts, c);
      if Faithful(db) { EmptyBucketHistory(db.docs, db.events.history, c); }
    }
  }

  lemma CreateKeepsInv(r: Rules, db: Db, c: Collection, body: Body, candidates: seq<Id>, expireIn: Lifetime, now: Time)
    requires DbInv(r, db) && |candidates| == ID_ATTEMPTS
    requires forall id | id in candidates :: ValidSegment(id)
    ensures var db' := After(db, Create(r, db, c, body, candidates, expireIn, now));
            DbInv(r, db') && (Faithful(db) ==> Faithful(db'))
  {
    EnsureCollectionKeepsInv(r, db, c);
    var o := Create(r, db, c, body, candidates, expireIn, now);
    if o.Done? {
      var db1 := EnsureCollection(db, c);
      FreshIdIsCandidate(db1.docs[c], candidates);
      var id := FreshId(db1.docs[c], candidates).value;
      MutateKeepsInv(r, db1, c, id, Some(body.fields), if expireIn.Lasts? then ExpireAt(now + expireIn.seconds) else Keep, now);
    }
  }

  lemma PutKeepsInv(r: Rules, db: Db, c: Collection, id: Id, body: Body, expected: Expected, expireIn: Lifetime, now: Time)
    requires DbInv(r, db)
    ensures var db' := After(db, Put(r, db, c, id, body, expected, expireIn, now));
            DbInv(r, db') && (Faithful(db) ==> Faithful(db'))
  {
    EnsureCollectionKeepsInv(r, db, c);
    if Put(r, db, c, id, body, expected, expireIn, now).Done? {
      MutateKeepsInv(r, EnsureCollection(db, c), c, id, Some(body.fields), ExpiryFor(now, expireIn), now);
    }
  }

  lemma PatchIsMutate(r: Rules, db: Db, c: Collection, id: Id, body: Body, expected: Expected, now: Time)
    requires Patch(r, db, c, id, body, expected, now).Done?
    ensures c in db.docs && id in db.docs[c] && Mergeable(body)
    ensures Patch(r, db, c, id, body, expected, now).db == Mutate(r, db, c, id, Some(db.docs[c][id] + Patched(body)), Keep, now)
  {
  }

  lemma PatchKeepsInv(r: Rules, db: Db, c: Collection, id: Id, body: Body, expected: Expected, now: Time)
    requires DbInv(r, db)
    ensures var db' := After(db, Patch(r, db, c, id, body, expected, now));
            DbInv(r, db') && (Faithful(db) ==> Faithful(db'))
  {
    var o := Patch(r, db, c, id, body, expected, now);
    if o.Done? {
      PatchIsMutate(r, db, c, id, body, expected, now);
      MutateKeepsInv(r, db, c, id, Some(db.docs[c][id] + Patched(body)), Keep, now);
    }
  }

  lemma RemoveKeepsInv(r: Rules, db: Db, c: Collection, id: Id, expected: Expected, now: Time)
    requires DbInv(r, db)
    ensures var db' := After(db, Remove(r, db, c, id, expected, now));
            DbInv(r, db') && (Faithful(db) ==> Faithful(db'))
  {
    if Remove(r, db, c, id, expected, now).Done? {
      MutateKeepsInv(r, db, c, id, None, Clear, now);
    }
  }

  lemma TxStepKeepsInv(r: Rules, db: Db, op: TxOp, now: Time)
    requires DbInv(r, db) && TxStep(r, db, op, now).Done?
    ensures DbInv(r, TxStep(r, db, op, now).db)
    ensures Faithful(db) ==> Faithful(TxStep(r, db, op, now).db)
  {
    var c, id := op.collection, op.id;
    EnsureCollectionKeepsInv(r, db, c);
    var db1 := EnsureCollection(db, c);
    match op.action
    case OpPut => MutateKeepsInv(r, db1, c, id, Some(op.body.fields), Clear, now);
    case OpPatch => MutateKeepsInv(r, db1, c, id, Some(db1.docs[c][id] + Patched(op.body)), Keep, now);
    case OpDelete => MutateKeepsInv(r, db1, c, id, None, Clear, now);
  }

  lemma {:induction false} TxFoldKeepsInv(r: Rules, db: Db, ops: seq<TxOp>, now: Time)
    requires DbInv(r, db) && TxFold(r, db, ops, now).Committed?
    ensures DbInv(r, TxFold(r, db, ops, now).db)
    ensures Faithful(db) ==> Faithful(TxFold(r, db, ops, now).db)
  {
    if ops != [] {
      TxFoldKeepsInv(r, db, ops[..|ops| - 1], now);
      TxStepKeepsInv(r, TxFold(r, db, ops[..|ops| - 1], now).db, ops[|ops| - 1], now);
    }
  }

  /** A transaction keeps the invariant whether it commits or aborts. */
  lemma TransactKeepsInv(r: Rules, db: Db, ops: seq<TxOp>, now: Time)
    requires DbInv(r, db)
    ensures var db' := AfterTx(db, Transact(r, db, ops, now));
            DbInv(r, db') && (Faithful(db) ==> Faithful(db'))
  {
    if Transact(r, db, ops, now).Committed? {
      TxFoldKeepsInv(r, db, ops, now);
    }
  }

  lemma CreateCollectionKeepsInv(r: Rules, db: Db, c: Collection)
    requires DbInv(r, db)
    ensures var db' := After(db, CreateCollection(db, c));
            DbInv(r, db') && (Faithful(db) ==> Faithful(db'))
  {
    EnsureCollectionKeepsInv(r, db, c);
  }

  /** Erasing a collection keeps every other table right; the history no longer folds to the
      documents exactly when the collection held any, because no event records their loss. */
  lemma DeleteCollectionKeepsInv(r: Rules, db: Db, c: Collection)
    requires DbInv(r, db)
    ensures DbInv(r, After(db, DeleteCollection(db, c)))
    ensures Faithful(db) ==> (Faithful(After(db, DeleteCollection(db, c)))
                              <==> (ValidCollection(c) ==> DocsOf(db.docs, c) == map[]))
  {
    if DeleteCollection(db, c).Done? {
      DropCollectionKeepsInv(db.docs, db.indexes, c);
      DropCollectionTidy(db.indexes, c);
      DropTextKeepsInv(r, db.docs, db.fts, c);
      DropTtlKeepsInv(db.docs, db.ttl, c);
      if Faithful(db) {
        LossUnrecorded(db, c);
      }
    }
  }

  lemma LossUnrecorded(db: Db, c: Collection)
    requires Faithful(db) && c in db.docs
    ensures HistoryInv(db.docs - {c}, db.events.history) <==> db.docs[c] == map[]
  {
    var docs' := db.docs - {c};
    if db.docs[c] == map[] {
      assert forall d, id :: Live(docs', d, id) <==> Live(db.docs, d, id);
    } else {
      var id :| id in db.docs[c];
      assert Live(db.docs, c, id) && !Live(docs', c, id);
      assert DocKey(c, id) in Fold(db.events.history);
    }
  }
}
