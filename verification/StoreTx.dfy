/** The store's write operations, statement by statement, each proved to be the step of the
    abstract database it stands for. */
module StoreTx {
  import opened ByteOrder
  import opened Documents
  import opened Keys
  import opened Storage
  import opened SecondaryIndex
  import opened FullText
  import opened TtlTables
  import opened EventLog
  import opened Writes
  import opened Maintenance
  import opened Bolt
  import opened IndexTx
  import opened TextTx
  import opened TablesTx

  /** `indexDocumentTx`: full text first, then the secondary indexes. */
  method IndexDocumentTx(r: Rules, tx: Tx, c: Collection, id: Id, d: Doc)
    modifies tx`postings, tx`reverse, tx`buckets
    ensures tx.IndexTables() == IndexDoc(old(tx.IndexTables()), c, id, d)
    ensures tx.TextTables() == IndexText(r, old(tx.TextTables()), c, id, d)
    ensures old(tx.Compact()) ==> tx.Compact()
  {
    IndexTextTx(r, tx, c, id, d);
    IndexDocument(tx, c, id, d);
  }

  /** `unindexDocumentTx`, from the old content. */
  method UnindexDocumentTx(tx: Tx, c: Collection, id: Id, d: Doc)
    modifies tx`postings, tx`reverse, tx`buckets
    ensures tx.IndexTables() == UnindexDoc(old(tx.IndexTables()), c, id, d)
    ensures tx.TextTables() == UnindexText(old(tx.TextTables()), c, id)
    ensures old(tx.Compact()) ==> tx.Compact()
  {
    UnindexTextTx(tx, c, id);
    UnindexDocument(tx, c, id, d);
  }

  method CreateBucketIfNotExists(tx: Tx, c: Collection)
    modifies tx`docs
    ensures tx.View() == EnsureCollection(old(tx.View()), c)
  {
    if c !in tx.docs { tx.docs := tx.docs[c := map[]]; }
  }

  // ---------------------------------------------------------------- the statements writes share

  /** Store the new version, set, clear or keep its TTL, index it, log it. */
  method Settle(r: Rules, tx: Tx, c: Collection, id: Id, data: Doc, change: TtlChange, action: Action, now: Time)
    requires c in tx.docs
    modifies tx`docs, tx`ttl, tx`postings, tx`reverse, tx`buckets, tx`events
    ensures tx.docs == old(tx.docs)[c := old(tx.docs)[c][id := data]]
    ensures tx.ttl == Retime(old(tx.ttl), c, id, change)
    ensures tx.IndexTables() == IndexDoc(old(tx.IndexTables()), c, id, data)
    ensures tx.TextTables() == IndexText(r, old(tx.TextTables()), c, id, data)
    ensures tx.events == Record(old(tx.events), action, c, id, Some(data), now)
    ensures old(tx.Compact()) ==> tx.Compact()
  {
    tx.docs := tx.docs[c := tx.docs[c][id := data]];
    match change {
      case Keep =>
      case Clear => ClearDocumentTtl(tx, c, id);
      case ExpireAt(e) => SetDocumentTtl(tx, c, id, e);
    }
    IndexDocumentTx(r, tx, c, id, data);
    var event := RecordEvent(tx, action, c, id, Some(data), now);
  }

  /** Put of a document that has no stored version. */
  method InsertFresh(r: Rules, tx: Tx, c: Collection, id: Id, data: Doc, expireIn: Lifetime, now: Time)
    requires c in tx.docs && id !in tx.docs[c]
    modifies tx
    ensures tx.View() == Mutate(r, old(tx.View()), c, id, Some(data), if expireIn.Lasts? then ExpireAt(now + expireIn.seconds) else Keep, now)
    ensures old(tx.Compact()) ==> tx.Compact()
  {
    IncrementCollectionCount(tx, c, 1);
    Settle(r, tx, c, id, data, if expireIn.Lasts? then ExpireAt(now + expireIn.seconds) else Keep, Insert, now);
  }

  /** Put after the precondition: old entries out or the count up, then store, TTL, index, log. */
  method Replace(r: Rules, tx: Tx, c: Collection, id: Id, data: Doc, expireIn: Lifetime, now: Time)
    requires c in tx.docs
    modifies tx
    ensures tx.View() == Mutate(r, old(tx.View()), c, id, Some(data), ExpiryFor(now, expireIn), now)
    ensures old(tx.Compact()) ==> tx.Compact()
  {
    var isInsert := id !in tx.docs[c];
    if isInsert {
      IncrementCollectionCount(tx, c, 1);
    } else {
      UnindexDocumentTx(tx, c, id, tx.docs[c][id]);
    }
    Settle(r, tx, c, id, data, ExpiryFor(now, expireIn), if isInsert then Insert else Update, now);
  }

  /** A patch past its checks: the TTL stays. */
  method Overwrite(r: Rules, tx: Tx, c: Collection, id: Id, merged: Doc, now: Time)
    requires c in tx.docs && id in tx.docs[c]
    modifies tx
    ensures tx.View() == Mutate(r, old(tx.View()), c, id, Some(merged), Keep, now)
    ensures old(tx.Compact()) ==> tx.Compact()
  {
    UnindexDocumentTx(tx, c, id, tx.docs[c][id]);
    Settle(r, tx, c, id, merged, Keep, Update, now);
  }

  /** The parts of a removal. */
  lemma RemovalParts(r: Rules, db: Db, c: Collection, id: Id, ttl: TtlChange, now: Time)
    requires c in db.docs && id in db.docs[c]
    ensures Mutate(r, db, c, id, None, ttl, now) ==
            Db(db.docs[c := db.docs[c] - {id}], Counted(db, c, -1), UnindexDoc(db.indexes, c, id, db.docs[c][id]),
               UnindexText(db.fts, c, id), Retime(db.ttl, c, id, ttl), Record(db.events, Delete, c, id, None, now))
  {
  }

  lemma CountedDepends(db: Db, db': Db, c: Collection, delta: int)
    requires db'.docs == db.docs && db'.counts == db.counts
    ensures Counted(db', c, delta) == Counted(db, c, delta)
  {
  }

  /** The statements of a delete past its checks. */
  method EraseTables(tx: Tx, c: Collection, id: Id, existing: Doc, now: Time)
    requires c in tx.docs && id in tx.docs[c]
    modifies tx`docs, tx`counts, tx`ttl, tx`postings, tx`reverse, tx`buckets, tx`events
    ensures tx.docs == old(tx.docs)[c := old(tx.docs)[c] - {id}] && tx.counts == Counted(old(tx.View()), c, -1)
    ensures tx.IndexTables() == UnindexDoc(old(tx.IndexTables()), c, id, existing)
    ensures tx.TextTables() == UnindexText(old(tx.TextTables()), c, id)
    ensures tx.ttl == ClearTtl(old(tx.ttl), c, id) && tx.events == Record(old(tx.events), Delete, c, id, None, now)
    ensures old(tx.Compact()) ==> tx.Compact()
  {
    IncrementCollectionCount(tx, c, -1);
    ClearDocumentTtl(tx, c, id);
    tx.docs := tx.docs[c := tx.docs[c] - {id}];
    assert tx.IndexTables() == old(tx.IndexTables()) && tx.TextTables() == old(tx.TextTables());
    UnindexDocumentTx(tx, c, id, existing);
    ghost var ix, fts := tx.IndexTables(), tx.TextTables();
    var event := RecordEvent(tx, Delete, c, id, None, now);
    assert tx.IndexTables() == ix && tx.TextTables() == fts;
  }

  method Erase(r: Rules, tx: Tx, c: Collection, id: Id, now: Time)
    requires c in tx.docs && id in tx.docs[c]
    modifies tx
    ensures tx.View() == Mutate(r, old(tx.View()), c, id, None, Clear, now)
    ensures old(tx.Compact()) ==> tx.Compact()
  {
    RemovalParts(r, tx.View(), c, id, Clear, now);
    EraseTables(tx, c, id, tx.docs[c][id], now);
  }

  // ---------------------------------------------------------------- single-document calls

  /** The id loop of `CreateDocumentWithTTL`. */
  method PickId(taken: map<Id, Doc>, candidates: seq<Id>) returns (id: Option<Id>)
    ensures id == FreshId(taken, candidates)
  {
    var i := 0;
    assert candidates[0..] == candidates;
    while i < |candidates|
      invariant i <= |candidates| && FreshId(taken, candidates) == FreshId(taken, candidates[i..])
    {
      if candidates[i] !in taken { return Some(candidates[i]); }
      assert candidates[i..][1..] == candidates[i + 1..];
      i := i + 1;
    }
    return None;
  }

  /** The insertion under the first id that is free. */
  method InsertNew(r: Rules, tx: Tx, c: Collection, data: Doc, candidates: seq<Id>, expireIn: Lifetime, now: Time) returns (ok: bool)
    requires c in tx.docs
    modifies tx
    ensures ok <==> FreshId(old(tx.docs)[c], candidates).Some?
    ensures ok ==>
              tx.View() == Mutate(r, old(tx.View()), c, FreshId(old(tx.docs)[c], candidates).value, Some(data),
                                  if expireIn.Lasts? then ExpireAt(now + expireIn.seconds) else Keep, now)
    ensures old(tx.Compact()) ==> tx.Compact()
  {
    var picked := PickId(tx.docs[c], candidates);
    if picked.None? { return false; }
    FreshIdIsCandidate(tx.docs[c], candidates);
    InsertFresh(r, tx, c, picked.value, data, expireIn, now);
    return true;
  }

  /** The update transaction: with no free id left it is rolled back. */
  method InsertOrRollBack(r: Rules, tx: Tx, c: Collection, data: Doc, candidates: seq<Id>, expireIn: Lifetime, now: Time)
    returns (ok: bool)
    modifies tx
    ensures var db := EnsureCollection(old(tx.View()), c);
            && (ok <==> FreshId(db.docs[c], candidates).Some?)
            && (ok ==> tx.View() == Mutate(r, db, c, FreshId(db.docs[c], candidates).value, Some(data),
                                           if expireIn.Lasts? then ExpireAt(now + expireIn.seconds) else Keep, now))
    ensures !ok ==> tx.View() == old(tx.View())
    ensures old(tx.Compact()) ==> tx.Compact()
  {
    var saved := tx.Saved();
    CreateBucketIfNotExists(tx, c);
    ok := InsertNew(r, tx, c, data, candidates, expireIn, now);
    if !ok { tx.Rollback(saved); }
  }

  /** What `Create` comes to once its checks have passed. */
  lemma CreateChecked(r: Rules, db: Db, c: Collection, body: Body, candidates: seq<Id>, expireIn: Lifetime, now: Time)
    requires |candidates| == ID_ATTEMPTS && ValidCollection(c) && body.Object? && r.accepts(c, body.fields)
    ensures var db1, o := EnsureCollection(db, c), Create(r, db, c, body, candidates, expireIn, now);
            if FreshId(db1.docs[c], candidates).None? then o == Fails(Exhausted)
            else o == Done(Mutate(r, db1, c, FreshId(db1.docs[c], candidates).value, Some(body.fields),
                                  if expireIn.Lasts? then ExpireAt(now + expireIn.seconds) else Keep, now),
                           Some(body.fields))
  {
  }

  method CreateDocument(r: Rules, tx: Tx, c: Collection, body: Body, candidates: seq<Id>, expireIn: Lifetime, now: Time)
    returns (error: Option<Error>, doc: Option<Doc>)
    requires |candidates| == ID_ATTEMPTS
    modifies tx
    ensures var o := Create(r, old(tx.View()), c, body, candidates, expireIn, now);
            && tx.View() == After(old(tx.View()), o)
            && (error.None? <==> o.Done?) && (o.Done? ==> doc == o.doc) && (o.Fails? ==> error == Some(o.error))
    ensures old(tx.Compact()) ==> tx.Compact()
  {
    doc := None;
    if !ValidCollection(c) { return Some(InvalidName), None; }
    if !body.Object? { return Some(InvalidJson), None; }
    var data := body.fields;
    if !r.accepts(c, data) { return Some(Rejected), None; }
    CreateChecked(r, tx.View(), c, body, candidates, expireIn, now);
    var ok := InsertOrRollBack(r, tx, c, data, candidates, expireIn, now);
    if !ok { return Some(Exhausted), None; }
    return None, Some(data);
  }

  method PutDocument(r: Rules, tx: Tx, c: Collection, id: Id, body: Body, expected: Expected, expireIn: Lifetime, now: Time)
    returns (error: Option<Error>, doc: Option<Doc>)
    modifies tx
    ensures var o := Put(r, old(tx.View()), c, id, body, expected, expireIn, now);
            && tx.View() == After(old(tx.View()), o)
            && (error.None? <==> o.Done?) && (o.Done? ==> doc == o.doc) && (o.Fails? ==> error == Some(o.error))
    ensures old(tx.Compact()) ==> tx.Compact()
  {
    doc := None;
    if !ValidCollection(c) || !ValidSegment(id) { return Some(InvalidName), None; }
    if !body.Object? { return Some(InvalidJson), None; }
    var data := body.fields;
    if !r.accepts(c, data) { return Some(Rejected), None; }
    var saved := tx.Saved();
    CreateBucketIfNotExists(tx, c);
    if id in tx.docs[c] {
      if PreconditionFails(tx.docs[c][id], expected) {
        tx.Rollback(saved);
        return Some(PreconditionFailed), None;
      }
    } else if expected != Unconditional && expected != Star {
      tx.Rollback(saved);
      return Some(PreconditionFailed), None;
    }
    Replace(r, tx, c, id, data, expireIn, now);
    return None, Some(data);
  }

  method PatchDocument(r: Rules, tx: Tx, c: Collection, id: Id, body: Body, expected: Expected, now: Time)
    returns (error: Option<Error>, doc: Option<Doc>)
    modifies tx
    ensures var o := Patch(r, old(tx.View()), c, id, body, expected, now);
            && tx.View() == After(old(tx.View()), o)
            && (error.None? <==> o.Done?) && (o.Done? ==> doc == o.doc) && (o.Fails? ==> error == Some(o.error))
    ensures old(tx.Compact()) ==> tx.Compact()
  {
    doc := None;
    if !ValidCollection(c) || !ValidSegment(id) { return Some(InvalidName), None; }
    if body.Malformed? { return Some(InvalidJson), None; }
    if c !in tx.docs { return Some(NotFound), None; }
    if id !in tx.docs[c] { return Some(NotFound), None; }
    var existing := tx.docs[c][id];
    if PreconditionFails(existing, expected) { return Some(PreconditionFailed), None; }
    if !Mergeable(body) { return Some(InvalidJson), None; }
    var merged := existing + Patched(body);
    if !r.accepts(c, merged) { return Some(Rejected), None; }
    Overwrite(r, tx, c, id, merged, now);
    return None, Some(merged);
  }

  method DeleteDocument(r: Rules, tx: Tx, c: Collection, id: Id, expected: Expected, now: Time) returns (error: Option<Error>)
    modifies tx
    ensures var o := Remove(r, old(tx.View()), c, id, expected, now);
            && tx.View() == After(old(tx.View()), o)
            && (error.None? <==> o.Done?) && (o.Fails? ==> error == Some(o.error))
    ensures old(tx.Compact()) ==> tx.Compact()
  {
    if !ValidCollection(c) || !ValidSegment(id) { return Some(InvalidName); }
    if c !in tx.docs { return Some(NotFound); }
    if id !in tx.docs[c] { return Some(NotFound); }
    if PreconditionFails(tx.docs[c][id], expected) { return Some(PreconditionFailed); }
    Erase(r, tx, c, id, now);
    return None;
  }

  // ---------------------------------------------------------------- transactions

  /** One turn of the operation loop. */
  method ExecuteOp(r: Rules, tx: Tx, op: TxOp, now: Time) returns (error: Option<Error>, result: Option<Doc>)
    modifies tx
    ensures var o := TxStep(r, old(tx.View()), op, now);
            && (error.None? <==> o.Done?) && (o.Fails? ==> error == Some(o.error))
            && (o.Done? ==> tx.View() == o.db && result == o.doc)
    ensures error.None? && old(tx.Compact()) ==> tx.Compact()
  {
    result := None;
    var c, id := op.collection, op.id;
    if !ValidCollection(c) || !ValidSegment(id) { return Some(InvalidName), None; }
    CreateBucketIfNotExists(tx, c);
    match op.action
    case OpPut =>
      if !op.body.Object? { return Some(InvalidJson), None; }
      if !r.accepts(c, op.body.fields) { return Some(Rejected), None; }
      if id !in tx.docs[c] {
        if op.expected != Unconditional { return Some(PreconditionFailed), None; }
      } else {
        if PreconditionFails(tx.docs[c][id], op.expected) { return Some(PreconditionFailed), None; }
      }
      Replace(r, tx, c, id, op.body.fields, Forever, now);
      return None, Some(op.body.fields);
    case OpPatch =>
      if id !in tx.docs[c] { return Some(NotFound), None; }
      if PreconditionFails(tx.docs[c][id], op.expected) { return Some(PreconditionFailed), None; }
      if !Mergeable(op.body) { return Some(InvalidJson), None; }
      var merged := tx.docs[c][id] + Patched(op.body);
      if !r.accepts(c, merged) { return Some(Rejected), None; }
      Overwrite(r, tx, c, id, merged, now);
      return None, Some(merged);
    case OpDelete =>
      if id !in tx.docs[c] { return Some(NotFound), None; }
      if PreconditionFails(tx.docs[c][id], op.expected) { return Some(PreconditionFailed), None; }
      Erase(r, tx, c, id, now);
      return None, None;
    case OpUnknown =>
      return Some(InvalidTransaction), None;
  }

  /** The checks made before the write lock is taken. */
  method CheckTransaction(ops: seq<TxOp>) returns (ok: bool)
    ensures ok <==> WellFormedTransaction(ops)
  {
    if |ops| == 0 || |ops| > MAX_TRANSACTION_OPS { return false; }
    var total := 0;
    for i := 0 to |ops|
      invariant total == TotalBytes(ops[..i]) && total <= MAX_TRANSACTION_BYTES
      invariant forall j | 0 <= j < i :: ops[j].action != OpUnknown
    {
      assert ops[..i + 1][..i] == ops[..i];
      total := total + ops[i].bytes;
      if total > MAX_TRANSACTION_BYTES {
        TotalBytesGrows(ops, i + 1);
        return false;
      }
      if ops[i].action == OpUnknown { return false; }
    }
    assert ops[..|ops|] == ops;
    return true;
  }

  lemma {:induction false} TotalBytesGrows(ops: seq<TxOp>, i: nat)
    requires i <= |ops|
    ensures TotalBytes(ops[..i]) <= TotalBytes(ops)
    decreases |ops|
  {
    if i < |ops| {
      TotalBytesGrows(ops[..|ops| - 1], i);
      assert ops[..|ops| - 1][..i] == ops[..i];
    } else {
      assert ops[..i] == ops;
    }
  }

  lemma {:induction false} TxFoldPrefix(r: Rules, db: Db, ops: seq<TxOp>, i: nat, now: Time)
    requires i <= |ops| && TxFold(r, db, ops[..i], now).Aborted?
    ensures TxFold(r, db, ops, now) == TxFold(r, db, ops[..i], now)
    decreases |ops|
  {
    if i == |ops| {
      assert ops[..i] == ops;
    } else {
      assert ops[..|ops| - 1][..i] == ops[..i];
      TxFoldPrefix(r, db, ops[..|ops| - 1], i, now);
    }
  }

  /** All or nothing: the operations in order, or every table as it was. */
  method ExecuteTransaction(r: Rules, tx: Tx, ops: seq<TxOp>, now: Time)
    returns (error: Option<Error>, results: seq<Option<Doc>>)
    modifies tx
    ensures var o := Transact(r, old(tx.View()), ops, now);
            && tx.View() == AfterTx(old(tx.View()), o)
            && (error.None? <==> o.Committed?) && (o.Committed? ==> results == o.results)
    ensures error.Some? ==> tx.Saved() == old(tx.Saved())
    ensures old(tx.Compact()) ==> tx.Compact()
  {
    results := [];
    var ok := CheckTransaction(ops);
    if !ok { return Some(InvalidTransaction), []; }
    var saved := tx.Saved();
    for i := 0 to |ops|
      invariant TxFold(r, old(tx.View()), ops[..i], now) == Committed(tx.View(), results)
      invariant old(tx.Compact()) ==> tx.Compact()
    {
      assert ops[..i + 1][..i] == ops[..i];
      var failure, result := ExecuteOp(r, tx, ops[i], now);
      if failure.Some? {
        TxFoldPrefix(r, old(tx.View()), ops, i + 1, now);
        tx.Rollback(saved);
        return failure, [];
      }
      results := results + [result];
    }
    assert ops[..|ops|] == ops;
    return None, results;
  }

  // ---------------------------------------------------------------- purge

  /** `purgeExpiredDocuments` for one database. */
  method PurgeExpired(r: Rules, tx: Tx, now: Time)
    modifies tx
    ensures tx.View() == Purge(r, old(tx.View()), now)
    ensures old(tx.Compact()) ==> tx.Compact()
  {
    while tx.ttl.due != {}
      invariant Purge(r, tx.View(), now) == Purge(r, old(tx.View()), now)
      invariant old(tx.Compact()) ==> tx.Compact()
      decreases |tx.ttl.due|
    {
      var key := Least(tx.ttl.due);
      var parsed := ParseTtlIndexKey(key);
      if parsed.Some? {
        var entry := parsed.value;
        if entry.expireAt > now { return; }
        var k := DocKey(entry.collection, entry.id);
        if k in tx.ttl.byDoc && tx.ttl.byDoc[k] == entry.expireAt {
          PurgeOne(r, tx, k, now);
        }
      }
      tx.ttl := tx.ttl.(due := tx.ttl.due - {key});
    }
  }

  /** The statements of the loop body that delete an expired document. */
  method PurgeTables(tx: Tx, c: Collection, id: Id, existing: Doc, now: Time)
    requires c in tx.docs && id in tx.docs[c]
    modifies tx`docs, tx`counts, tx`postings, tx`reverse, tx`buckets, tx`events
    ensures tx.docs == old(tx.docs)[c := old(tx.docs)[c] - {id}] && tx.counts == Counted(old(tx.View()), c, -1)
    ensures tx.IndexTables() == UnindexDoc(old(tx.IndexTables()), c, id, existing)
    ensures tx.TextTables() == UnindexText(old(tx.TextTables()), c, id)
    ensures tx.ttl == old(tx.ttl) && tx.events == Record(old(tx.events), Delete, c, id, None, now)
    ensures old(tx.Compact()) ==> tx.Compact()
  {
    UnindexDocumentTx(tx, c, id, existing);
    ghost var ix, fts := tx.IndexTables(), tx.TextTables();
    CountedDepends(old(tx.View()), tx.View(), c, -1);
    IncrementCollectionCount(tx, c, -1);
    tx.docs := tx.docs[c := tx.docs[c] - {id}];
    var event := RecordEvent(tx, Delete, c, id, None, now);
    assert tx.IndexTables() == ix && tx.TextTables() == fts;
  }

  /** The part of the loop body that deletes the document and its own TTL entry. */
  method PurgeOne(r: Rules, tx: Tx, k: DocKey, now: Time)
    requires k in tx.ttl.byDoc
    modifies tx
    ensures tx.View() ==
            (if Live(old(tx.docs), k.collection, k.id) then Mutate(r, old(tx.View()), k.collection, k.id, None, Keep, now)
             else old(tx.View())).(ttl := Ttl(old(tx.ttl.byDoc) - {k}, old(tx.ttl.due)))
    ensures old(tx.Compact()) ==> tx.Compact()
  {
    var c, id := k.collection, k.id;
    if c in tx.docs && id in tx.docs[c] {
      RemovalParts(r, tx.View(), c, id, Keep, now);
      PurgeTables(tx, c, id, tx.docs[c][id], now);
    }
    tx.ttl := tx.ttl.(byDoc := tx.ttl.byDoc - {k});
  }

  // ---------------------------------------------------------------- collections

  method CreateCollectionTx(tx: Tx, c: Collection) returns (error: Option<Error>, created: bool)
    modifies tx`docs, tx`counts
    ensures tx.View() == After(old(tx.View()), CreateCollection(old(tx.View()), c))
    ensures error.None? <==> ValidCollection(c)
    ensures created <==> ValidCollection(c) && c !in old(tx.docs)
  {
    created := false;
    if !ValidCollection(c) { return Some(InvalidName), false; }
    if c !in tx.docs {
      tx.docs := tx.docs[c := map[]];
      tx.counts := tx.counts[c := 0];
      created := true;
    }
    return None, created;
  }

  /** The statements of `DeleteCollection` past its checks. */
  method EraseCollection(tx: Tx, c: Collection)
    modifies tx
    ensures tx.docs == old(tx.docs) - {c} && tx.counts == old(tx.counts) - {c}
    ensures tx.IndexTables() == DropCollection(old(tx.IndexTables()), c)
    ensures tx.TextTables() == DropText(old(tx.TextTables()), c)
    ensures tx.ttl == DropTtl(old(tx.ttl), c) && tx.events == old(tx.events)
    ensures old(tx.Compact()) ==> tx.Compact()
  {
    DeleteIndexesForCollection(tx, c);
    DeleteTextForCollection(tx, c);
    DeleteTtlForCollection(tx, c);
    tx.counts := tx.counts - {c};
    tx.docs := tx.docs - {c};
  }

  method DeleteCollectionTx(tx: Tx, c: Collection) returns (error: Option<Error>)
    modifies tx
    ensures tx.View() == After(old(tx.View()), DeleteCollection(old(tx.View()), c))
    ensures error.None? <==> DeleteCollection(old(tx.View()), c).Done?
    ensures old(tx.Compact()) ==> tx.Compact()
  {
    if !ValidCollection(c) { return Some(InvalidName); }
    if c !in tx.docs { return Some(NotFound); }
    EraseCollection(tx, c);
    return None;
  }

  // ---------------------------------------------------------------- full-text backfill

  /** `applyFTSBackfillBatch`. */
  method ApplyTextBatchTx(r: Rules, tx: Tx, c: Collection, batch: seq<TextEntry>)
    modifies tx`postings, tx`reverse
    ensures tx.View() == ApplyTextBatch(r, old(tx.View()), c, batch)
    ensures old(NoEmptyPostings(tx.postings)) ==> NoEmptyPostings(tx.postings)
  {
    if c !in tx.docs { return; }
    for i := 0 to |batch|
      invariant tx.View() == ApplyTextBatch(r, old(tx.View()), c, batch[..i])
      invariant old(NoEmptyPostings(tx.postings)) ==> NoEmptyPostings(tx.postings)
    {
      assert batch[..i + 1][..i] == batch[..i];
      var e := batch[i];
      if e.id in tx.docs[c] && ComputeETag(tx.docs[c][e.id]) == e.etag {
        IndexTextTx(r, tx, c, e.id, e.doc);
      }
    }
    assert batch[..|batch|] == batch;
  }

  /** `collectFTSBackfillBatch` on the snapshot's documents. */
  method CollectTextBatch(docs: map<Id, Doc>, after: Option<Id>, limit: nat)
    returns (batch: seq<TextEntry>, last: Option<Id>, done: bool)
    requires limit > 0
    ensures TextBatchOf(docs, after, last, done, batch)
    ensures !done ==> last.Some? && last.value in docs && !Passed(after, false, last.value)
    ensures |batch| <= limit
  {
    var keys := Ascending(set id | id in docs && !Passed(after, false, id));
    assert forall i | 0 <= i < |keys| :: keys[i] in keys;
    var scanned := 0;
    batch := [];
    last := None;
    while scanned < |keys| && scanned < limit
      invariant scanned <= |keys| && |batch| == scanned <= limit
      invariant last == if scanned == 0 then None else Some(keys[scanned - 1])
      invariant forall i | 0 <= i < |keys| :: keys[i] in docs
      invariant forall i | scanned <= i < |keys| :: !Passed(last, false, keys[i])
      invariant forall i | 0 <= i < scanned :: TextEntry(keys[i], ComputeETag(docs[keys[i]]), docs[keys[i]]) in batch
      invariant forall e | e in batch :: e.id in docs && e.doc == docs[e.id] && e.etag == ComputeETag(e.doc)
    {
      var id := keys[scanned];
      assert id in keys;
      batch := batch + [TextEntry(id, ComputeETag(docs[id]), docs[id])];
      last := Some(id);
      scanned := scanned + 1;
    }
    done := scanned == |keys|;
    forall id | id in docs && !Passed(after, false, id) && Passed(last, done, id)
      ensures TextEntry(id, ComputeETag(docs[id]), docs[id]) in batch
    {
      assert id in keys;
      var i :| 0 <= i < |keys| && keys[i] == id;
    }
    if !done { assert last.value in keys; }
  }
}
