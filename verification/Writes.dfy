/** Document writes as steps of the abstract database: what create, put, patch, delete and one
    transaction operation do to every table at once. */
module Writes {
  import opened ByteOrder
  import opened Documents
  import opened Keys
  import opened Storage
  import opened SecondaryIndex
  import opened FullText
  import opened TtlTables
  import opened EventLog

  datatype Outcome = Done(db: Db, doc: Option<Doc>) | Fails(error: Error)

  /** The tables after an operation: a failing one is rolled back. */
  function After(db: Db, o: Outcome): Db {
    if o.Done? then o.db else db
  }

  /** `getCollectionCountTx`: the stored count, or the live key count when none is stored. */
  function EffectiveCount(db: Db, c: Collection): int {
    if c in db.counts then db.counts[c] else |DocsOf(db.docs, c)|
  }

  /** `incrementCollectionCountTx`, with the clamp of `putCollectionCountTx`. */
  function Counted(db: Db, c: Collection, delta: int): map<Collection, int> {
    var n := EffectiveCount(db, c) + delta;
    db.counts[c := if n < 0 then 0 else n]
  }

  function EnsureCollection(db: Db, c: Collection): Db {
    if c in db.docs then db else db.(docs := db.docs[c := map[]])
  }

  function Current(db: Db, c: Collection, id: Id): Option<Doc> {
    if Live(db.docs, c, id) then Some(db.docs[c][id]) else None
  }

  datatype TtlChange = Keep | Clear | ExpireAt(at: Expiry)

  function Retime(t: Ttl, c: Collection, id: Id, change: TtlChange): Ttl {
    match change
    case Keep => t
    case Clear => ClearTtl(t, c, id)
    case ExpireAt(e) => SetTtl(t, c, id, e)
  }

  /** One document becomes `now` (None: is removed); every derived table follows. */
  function Mutate(r: Rules, db: Db, c: Collection, id: Id, now: Option<Doc>, ttl: TtlChange, time: Time): Db
    requires c in db.docs
    requires now.None? ==> id in db.docs[c]
  {
    var was := Current(db, c, id);
    var action := if now.None? then Delete else if was.None? then Insert else Update;
    Db(
      db.docs[c := Replaced(db.docs[c], id, now)],
      if now.None? then Counted(db, c, -1) else if was.None? then Counted(db, c, 1) else db.counts,
      Reindex(db.indexes, c, id, was, now),
      Retext(r, db.fts, c, id, was, now),
      Retime(db.ttl, c, id, ttl),
      Record(db.events, action, c, id, now, time)
    )
  }

  /** How long a document is to live: without end (a duration of zero or less), or until so many
      seconds after the current one. A positive duration shorter than a second may end in the
      current second. */
  datatype Lifetime = Forever | Lasts(seconds: Time)

  predicate ValidNames(c: Collection, id: Id) {
    ValidCollection(c) && ValidSegment(id)
  }

  function ExpiryFor(now: Time, expireIn: Lifetime): TtlChange {
    if expireIn.Lasts? then ExpireAt(now + expireIn.seconds) else Clear
  }

  /** The first usable id among at most sixteen generated ones. */
  function FreshId(taken: map<Id, Doc>, candidates: seq<Id>): Option<Id> {
    if candidates == [] then None
    else if candidates[0] !in taken then Some(candidates[0])
    else FreshId(taken, candidates[1..])
  }

  /** The generated id is new, so create never overwrites; it fails only when every one of the
      candidates is taken. */
  lemma {:induction false} FreshIdIsCandidate(taken: map<Id, Doc>, candidates: seq<Id>)
    ensures FreshId(taken, candidates).Some? ==>
              FreshId(taken, candidates).value in candidates && FreshId(taken, candidates).value !in taken
    ensures FreshId(taken, candidates).None? <==> forall id | id in candidates :: id in taken
  {
    if candidates != [] {
      FreshIdIsCandidate(taken, candidates[1..]);
      assert candidates == [candidates[0]] + candidates[1..];
    }
  }

  const ID_ATTEMPTS: nat := 16

  /** `CreateDocumentWithTTL`; `candidates` are the ids the generator would return. */
  function Create(r: Rules, db: Db, c: Collection, body: Body, candidates: seq<Id>, expireIn: Lifetime, now: Time): Outcome
    requires |candidates| == ID_ATTEMPTS
  {
    if !ValidCollection(c) then Fails(InvalidName)
    else if !body.Object? then Fails(InvalidJson)
    else if !r.accepts(c, body.fields) then Fails(Rejected)
    else
      var db1 := EnsureCollection(db, c);
      match FreshId(db1.docs[c], candidates)
      case None => Fails(Exhausted)
      case Some(id) =>
        Done(Mutate(r, db1, c, id, Some(body.fields), if expireIn.Lasts? then ExpireAt(now + expireIn.seconds) else Keep, now),
             Some(body.fields))
  }

  /** `PutDocumentWithTTL`. */
  function Put(r: Rules, db: Db, c: Collection, id: Id, body: Body, expected: Expected, expireIn: Lifetime, now: Time): Outcome {
    if !ValidNames(c, id) then Fails(InvalidName)
    else if !body.Object? then Fails(InvalidJson)
    else if !r.accepts(c, body.fields) then Fails(Rejected)
    else
      var db1 := EnsureCollection(db, c);
      if id in db1.docs[c] && PreconditionFails(db1.docs[c][id], expected) then Fails(PreconditionFailed)
      else if id !in db1.docs[c] && expected != Unconditional && expected != Star then Fails(PreconditionFailed)
      else Done(Mutate(r, db1, c, id, Some(body.fields), ExpiryFor(now, expireIn), now), Some(body.fields))
  }

  /** `PatchDocument`: a shallow merge over the stored document. */
  function Patch(r: Rules, db: Db, c: Collection, id: Id, body: Body, expected: Expected, now: Time): Outcome {
    if !ValidNames(c, id) then Fails(InvalidName)
    else if body.Malformed? then Fails(InvalidJson)
    else if !Live(db.docs, c, id) then Fails(NotFound)
    else if PreconditionFails(db.docs[c][id], expected) then Fails(PreconditionFailed)
    else if !Mergeable(body) then Fails(InvalidJson)
    else
      var merged := db.docs[c][id] + Patched(body);
      if !r.accepts(c, merged) then Fails(Rejected)
      else Done(Mutate(r, db, c, id, Some(merged), Keep, now), Some(merged))
  }

  /** `DeleteDocument`. */
  function Remove(r: Rules, db: Db, c: Collection, id: Id, expected: Expected, now: Time): Outcome {
    if !ValidNames(c, id) then Fails(InvalidName)
    else if !Live(db.docs, c, id) then Fails(NotFound)
    else if PreconditionFails(db.docs[c][id], expected) then Fails(PreconditionFailed)
    else Done(Mutate(r, db, c, id, None, Clear, now), None)
  }

  // ---------------------------------------------------------------- transactions

  datatype OpAction = OpPut | OpPatch | OpDelete | OpUnknown
  datatype TxOp = TxOp(action: OpAction, collection: Collection, id: Id, body: Body, expected: Expected, bytes: nat)

  const MAX_TRANSACTION_OPS: nat := 100
  const MAX_TRANSACTION_BYTES: nat := 4 * 1024 * 1024

  /** One operation of `ExecuteTransaction`, on the tables its predecessors left. */
  function TxStep(r: Rules, db: Db, op: TxOp, now: Time): Outcome {
    var c, id := op.collection, op.id;
    if !ValidNames(c, id) then Fails(InvalidName)
    else
      var db1 := EnsureCollection(db, c);
      match op.action
      case OpPut =>
        if !op.body.Object? then Fails(InvalidJson)
        else if !r.accepts(c, op.body.fields) then Fails(Rejected)
        else if id !in db1.docs[c] && op.expected != Unconditional then Fails(PreconditionFailed)
        else if id in db1.docs[c] && PreconditionFails(db1.docs[c][id], op.expected) then Fails(PreconditionFailed)
        else Done(Mutate(r, db1, c, id, Some(op.body.fields), Clear, now), Some(op.body.fields))
      case OpPatch =>
        if id !in db1.docs[c] then Fails(NotFound)
        else if PreconditionFails(db1.docs[c][id], op.expected) then Fails(PreconditionFailed)
        else if !Mergeable(op.body) then Fails(InvalidJson)
        else
          var merged := db1.docs[c][id] + Patched(op.body);
          if !r.accepts(c, merged) then Fails(Rejected)
          else Done(Mutate(r, db1, c, id, Some(merged), Keep, now), Some(merged))
      case OpDelete =>
        if id !in db1.docs[c] then Fails(NotFound)
        else if PreconditionFails(db1.docs[c][id], op.expected) then Fails(PreconditionFailed)
        else Done(Mutate(r, db1, c, id, None, Clear, now), None)
      case OpUnknown => Fails(InvalidTransaction)
  }

  function TotalBytes(ops: seq<TxOp>): nat {
    if ops == [] then 0 else TotalBytes(ops[..|ops| - 1]) + ops[|ops| - 1].bytes
  }

  predicate WellFormedTransaction(ops: seq<TxOp>) {
    && 0 < |ops| <= MAX_TRANSACTION_OPS
    && TotalBytes(ops) <= MAX_TRANSACTION_BYTES
    && forall i | 0 <= i < |ops| :: ops[i].action != OpUnknown
  }

  datatype TxOutcome = Committed(db: Db, results: seq<Option<Doc>>) | Aborted(error: Error)

  /** The left fold of the operations, later ones seeing earlier writes. */
  function TxFold(r: Rules, db: Db, ops: seq<TxOp>, now: Time): TxOutcome {
    if ops == [] then Committed(db, [])
    else
      match TxFold(r, db, ops[..|ops| - 1], now)
      case Aborted(e) => Aborted(e)
      case Committed(db1, results) =>
        match TxStep(r, db1, ops[|ops| - 1], now)
        case Fails(e) => Aborted(e)
        case Done(db2, d) => Committed(db2, results + [d])
  }

  /** `ExecuteTransaction`. */
  function Transact(r: Rules, db: Db, ops: seq<TxOp>, now: Time): TxOutcome {
    if WellFormedTransaction(ops) then TxFold(r, db, ops, now) else Aborted(InvalidTransaction)
  }

  function AfterTx(db: Db, o: TxOutcome): Db {
    if o.Committed? then o.db else db
  }

  // ---------------------------------------------------------------- purge

  /** `purgeExpiredDocuments` for one database: the cursor loop over the TTL index. Every visited
      key is deleted, so the cursor is always at the least remaining key. */
  function Purge(r: Rules, db: Db, now: Time): Db
    decreases |db.ttl.due|
  {
    if db.ttl.due == {} then db
    else
      var key := Least(db.ttl.due);
      var dropped := db.(ttl := db.ttl.(due := db.ttl.due - {key}));
      match ParseTtlIndexKey(key)
      case None => Purge(r, dropped, now)
      case Some(entry) =>
        var k := DocKey(entry.collection, entry.id);
        if entry.expireAt > now then db
        else if k !in db.ttl.byDoc || db.ttl.byDoc[k] != entry.expireAt then Purge(r, dropped, now)
        else
          var removed := if Live(db.docs, k.collection, k.id) then Mutate(r, db, k.collection, k.id, None, Keep, now) else db;
          Purge(r, removed.(ttl := Ttl(db.ttl.byDoc - {k}, db.ttl.due - {key})), now)
  }

  // ---------------------------------------------------------------- collections

  /** `CreateCollection`. */
  function CreateCollection(db: Db, c: Collection): Outcome {
    if !ValidCollection(c) then Fails(InvalidName)
    else if c in db.docs then Done(db, None)
    else Done(db.(docs := db.docs[c := map[]], counts := db.counts[c := 0]), None)
  }

  /** `DeleteCollection`. */
  function DeleteCollection(db: Db, c: Collection): Outcome {
    if !ValidCollection(c) then Fails(InvalidName)
    else if c !in db.docs then Fails(NotFound)
    else Done(Db(
      db.docs - {c},
      db.counts - {c},
      DropCollection(db.indexes, c),
      DropText(db.fts, c),
      DropTtl(db.ttl, c),
      db.events
    ), None)
  }
}
