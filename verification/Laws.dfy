/** Laws that relate the operations to one another: conditional writes as compare-and-swap,
    transactions against single calls, and what erasing a collection leaves behind. */
module Laws {
  import opened ByteOrder
  import opened Documents
  import opened Keys
  import opened ETagHeader
  import opened Storage
  import opened SecondaryIndex
  import opened FullText
  import opened TtlTables
  import opened EventLog
  import opened Writes
  import opened Invariants

  // ---------------------------------------------------------------- compare-and-swap

  function Guard(seen: Doc): Expected {
    Tags([Exactly(ComputeETag(seen))])
  }

  /** A put guarded by one concrete tag succeeds exactly when the stored document is the content
      the tag was computed from (and the request itself is acceptable). */
  lemma GuardedPutIsCompareAndSwap(r: Rules, db: Db, c: Collection, id: Id, body: Body, seen: Doc, expireIn: Lifetime, now: Time)
    ensures Put(r, db, c, id, body, Guard(seen), expireIn, now).Done?
            <==> (ValidNames(c, id) && body.Object? && r.accepts(c, body.fields) && Current(db, c, id) == Some(seen))
  {
    assert Exactly(ComputeETag(seen)) in [Exactly(ComputeETag(seen))];
  }

  lemma GuardedPatchIsCompareAndSwap(r: Rules, db: Db, c: Collection, id: Id, body: Body, seen: Doc, now: Time)
    ensures Patch(r, db, c, id, body, Guard(seen), now).Done?
            <==> (ValidNames(c, id) && Mergeable(body) && Current(db, c, id) == Some(seen) && r.accepts(c, seen + Patched(body)))
    ensures Patch(r, db, c, id, body, Guard(seen), now).Done? ==>
              Current(Patch(r, db, c, id, body, Guard(seen), now).db, c, id) == Some(seen + Patched(body))
  {
    assert Exactly(ComputeETag(seen)) in [Exactly(ComputeETag(seen))];
  }

  lemma GuardedRemoveIsCompareAndSwap(r: Rules, db: Db, c: Collection, id: Id, seen: Doc, now: Time)
    ensures Remove(r, db, c, id, Guard(seen), now).Done? <==> (ValidNames(c, id) && Current(db, c, id) == Some(seen))
  {
    assert Exactly(ComputeETag(seen)) in [Exactly(ComputeETag(seen))];
  }

  /** An operation of a transaction that carries one concrete tag succeeds exactly when it finds
      that content in the state its predecessors left (and is otherwise acceptable). */
  lemma GuardedTxOpIsCompareAndSwap(r: Rules, db: Db, op: TxOp, seen: Doc, now: Time)
    requires op.expected == Guard(seen)
    ensures TxStep(r, db, op, now).Done?
       <==> (ValidNames(op.collection, op.id) && Current(db, op.collection, op.id) == Some(seen)
             && match op.action
                case OpPut => op.body.Object? && r.accepts(op.collection, op.body.fields)
                case OpPatch => Mergeable(op.body) && r.accepts(op.collection, seen + Patched(op.body))
                case OpDelete => true
                case OpUnknown => false)
  {
    assert Exactly(ComputeETag(seen)) in [Exactly(ComputeETag(seen))];
  }

  /** The text of the header admits the write to what is stored under the id: there is none, or the
      code's own loop over its pieces accepts the digest of the stored document. */
  ghost predicate Admits(digest: Doc -> string, header: string, current: Doc) {
    header == "" || AnyMatches(digest(current), Split(header))
  }

  /** From the header text to the outcome: with a digest that tells the contents apart, a put, a patch
      and a delete succeed exactly when the text admits the stored document, and an otherwise
      acceptable put of a missing document when the text is empty or a star. */
  lemma HeaderDecidesWrites(r: Rules, db: Db, c: Collection, id: Id, body: Body, expireIn: Lifetime, now: Time,
      digest: Doc -> string, contents: set<Doc>, header: string, expected: Expected)
    requires TellsApart(digest, contents) && Denotes(digest, contents, header, expected)
    requires Live(db.docs, c, id) ==> db.docs[c][id] in contents
    ensures Put(r, db, c, id, body, expected, expireIn, now).Done?
       <==> (ValidNames(c, id) && body.Object? && r.accepts(c, body.fields)
             && if Live(db.docs, c, id) then Admits(digest, header, db.docs[c][id]) else header == "" || header == "*")
    ensures Patch(r, db, c, id, body, expected, now).Done?
       <==> (ValidNames(c, id) && Mergeable(body) && Live(db.docs, c, id) && Admits(digest, header, db.docs[c][id])
             && r.accepts(c, db.docs[c][id] + Patched(body)))
    ensures Remove(r, db, c, id, expected, now).Done?
       <==> (ValidNames(c, id) && Live(db.docs, c, id) && Admits(digest, header, db.docs[c][id]))
  {
    if Live(db.docs, c, id) && expected != Unconditional {
      HeaderMeansMatches(digest, contents, header, expected, db.docs[c][id]);
    }
  }

  // ---------------------------------------------------------------- transactions

  /** A one-operation put transaction leaves the same tables as the single call, except exactly
      when an otherwise acceptable put expects "*" of a missing document: the single call then
      inserts, the transaction refuses. */
  lemma OneOpPutTransaction(r: Rules, db: Db, op: TxOp, now: Time)
    requires op.action == OpPut && op.bytes <= MAX_TRANSACTION_BYTES
    ensures AfterTx(db, Transact(r, db, [op], now)) == After(db, Put(r, db, op.collection, op.id, op.body, op.expected, Forever, now))
       <==> !(op.expected == Star && !Live(db.docs, op.collection, op.id)
              && ValidNames(op.collection, op.id) && op.body.Object? && r.accepts(op.collection, op.body.fields))
  {
    SingletonFold(r, db, op, now);
    var o := Put(r, db, op.collection, op.id, op.body, op.expected, Forever, now);
    if o.Done? {
      assert o.db.events.last == db.events.last + 1;
    }
  }

  lemma OneOpPatchTransaction(r: Rules, db: Db, op: TxOp, now: Time)
    requires op.action == OpPatch && op.bytes <= MAX_TRANSACTION_BYTES
    ensures AfterTx(db, Transact(r, db, [op], now)) == After(db, Patch(r, db, op.collection, op.id, op.body, op.expected, now))
    ensures Transact(r, db, [op], now).Committed? <==> Patch(r, db, op.collection, op.id, op.body, op.expected, now).Done?
  {
    SingletonFold(r, db, op, now);
  }

  lemma OneOpDeleteTransaction(r: Rules, db: Db, op: TxOp, now: Time)
    requires op.action == OpDelete && op.bytes <= MAX_TRANSACTION_BYTES
    ensures AfterTx(db, Transact(r, db, [op], now)) == After(db, Remove(r, db, op.collection, op.id, op.expected, now))
    ensures Transact(r, db, [op], now).Committed? <==> Remove(r, db, op.collection, op.id, op.expected, now).Done?
  {
    SingletonFold(r, db, op, now);
  }

  lemma SingletonFold(r: Rules, db: Db, op: TxOp, now: Time)
    requires op.action != OpUnknown && op.bytes <= MAX_TRANSACTION_BYTES
    ensures AfterTx(db, Transact(r, db, [op], now)) == After(db, TxStep(r, db, op, now))
    ensures Transact(r, db, [op], now).Committed? <==> TxStep(r, db, op, now).Done?
  {
    assert [op][..0] == [];
    assert TotalBytes([op]) == TotalBytes([]) + op.bytes;
    assert TxFold(r, db, [], now) == Committed(db, []);
  }

  /** A transaction splits anywhere: its first part, then its second on the tables the first left. */
  lemma {:induction false} TxFoldSplits(r: Rules, db: Db, first: seq<TxOp>, second: seq<TxOp>, now: Time)
    ensures TxFold(r, db, first + second, now) ==
            match TxFold(r, db, first, now)
            case Aborted(e) => Aborted(e)
            case Committed(db1, results) =>
              match TxFold(r, db1, second, now)
              case Aborted(e) => Aborted(e)
              case Committed(db2, more) => Committed(db2, results + more)
  {
    if second == [] {
      assert first + second == first;
      match TxFold(r, db, first, now) {
        case Aborted(_) =>
        case Committed(_, results) => assert results + [] == results;
      }
    } else {
      var front, op := second[..|second| - 1], second[|second| - 1];
      TxFoldSplits(r, db, first, front, now);
      assert (first + second)[..|first + second| - 1] == first + front;
      assert (first + second)[|first + second| - 1] == op;
      match TxFold(r, db, first, now) {
        case Aborted(_) =>
        case Committed(db1, results) =>
          match TxFold(r, db1, front, now) {
            case Aborted(_) =>
            case Committed(db2, more) =>
              match TxStep(r, db2, op, now) {
                case Fails(_) =>
                case Done(_, d) => assert results + (more + [d]) == (results + more) + [d];
              }
          }
      }
    }
  }

  predicate EventOfOp(e: Event, op: TxOp, result: Option<Doc>) {
    e.collection == op.collection && e.id == op.id && e.doc == result && (e.action == Delete <==> op.action == OpDelete)
  }

  ghost predicate EventsOfOps(events: seq<Event>, ops: seq<TxOp>, results: seq<Option<Doc>>) {
    && |events| == |ops| == |results|
    && forall i | 0 <= i < |ops| :: EventOfOp(events[i], ops[i], results[i])
  }

  /** A committed transaction records one event per operation, in order, numbered consecutively. */
  lemma {:induction false} TxFoldEvents(r: Rules, db: Db, ops: seq<TxOp>, now: Time) returns (added: seq<Event>)
    requires TxFold(r, db, ops, now).Committed?
    ensures TxFold(r, db, ops, now).db.events.last == db.events.last + |ops|
    ensures TxFold(r, db, ops, now).db.events.history == db.events.history + added
    ensures EventsOfOps(added, ops, TxFold(r, db, ops, now).results)
  {
    added := [];
    if ops != [] {
      var front := ops[..|ops| - 1];
      var earlier := TxFoldEvents(r, db, front, now);
      var before, e, d := TxFoldLast(r, db, ops, now);
      added := earlier + [e];
      EventsExtend(db.events.history, earlier, ops, before.results, e, d);
    }
  }

  lemma TxFoldLast(r: Rules, db: Db, ops: seq<TxOp>, now: Time) returns (before: TxOutcome, e: Event, d: Option<Doc>)
    requires ops != [] && TxFold(r, db, ops, now).Committed?
    ensures before == TxFold(r, db, ops[..|ops| - 1], now) && before.Committed?
    ensures TxFold(r, db, ops, now).db.events.last == before.db.events.last + 1
    ensures TxFold(r, db, ops, now).db.events.history == before.db.events.history + [e]
    ensures TxFold(r, db, ops, now).results == before.results + [d]
    ensures EventOfOp(e, ops[|ops| - 1], d)
  {
    before := TxFold(r, db, ops[..|ops| - 1], now);
    e := TxStepEvent(r, before.db, ops[|ops| - 1], now);
    d := TxStep(r, before.db, ops[|ops| - 1], now).doc;
  }

  lemma EventsExtend(history: seq<Event>, earlier: seq<Event>, ops: seq<TxOp>, results: seq<Option<Doc>>, e: Event, d: Option<Doc>)
    requires ops != [] && EventsOfOps(earlier, ops[..|ops| - 1], results)
    requires EventOfOp(e, ops[|ops| - 1], d)
    ensures EventsOfOps(earlier + [e], ops, results + [d])
    ensures (history + earlier) + [e] == history + (earlier + [e])
  {
  }

  lemma TxStepEvent(r: Rules, db: Db, op: TxOp, now: Time) returns (e: Event)
    requires TxStep(r, db, op, now).Done?
    ensures TxStep(r, db, op, now).db.events.last == db.events.last + 1
    ensures TxStep(r, db, op, now).db.events.history == db.events.history + [e]
    ensures EventOfOp(e, op, TxStep(r, db, op, now).doc)
  {
    e := TxStep(r, db, op, now).db.events.history[|db.events.history|];
  }

  // ---------------------------------------------------------------- erasing a collection

  /** Nothing anywhere mentions the collection. */
  ghost predicate NoTrace(db: Db, c: Collection) {
    && c !in db.docs && c !in db.counts
    && c !in db.indexes.ready && (forall p | p in db.indexes.building :: p.collection != c)
    && (forall n | n in db.indexes.buckets :: exists p :: InUse(db.indexes, p) && Name(p) == n && p.collection != c)
    && c !in db.fts.config
    && (forall p | p in db.fts.forward :: p.collection != c)
    && (forall k | k in db.fts.reverse :: k.collection != c)
    && (forall k | k in db.ttl.byDoc :: k.collection != c)
    && (forall key | key in db.ttl.due :: KeyCollection(key) != Some(c))
  }

  /** Everything that belongs to `d` is the same in both databases. */
  ghost predicate SameFor(db: Db, db': Db, d: Collection) {
    && (d in db.docs <==> d in db'.docs) && DocsOf(db.docs, d) == DocsOf(db'.docs, d)
    && EffectiveCount(db, d) == EffectiveCount(db', d)
    && ReadyFields(db.indexes, d) == ReadyFields(db'.indexes, d)
    && (forall p: Pair | p.collection == d ::
          && (p in db.indexes.building <==> p in db'.indexes.building)
          && (InUse(db.indexes, p) ==> Name(p) in db.indexes.buckets && Name(p) in db'.indexes.buckets
                                       && db.indexes.buckets[Name(p)] == db'.indexes.buckets[Name(p)]))
    && (d in db.fts.config <==> d in db'.fts.config) && (d in db.fts.config ==> db.fts.config[d] == db'.fts.config[d])
    && (forall p: Posting | p.collection == d :: p in db.fts.forward <==> p in db'.fts.forward)
    && (forall k: DocKey | k.collection == d ::
          && (k in db.fts.reverse <==> k in db'.fts.reverse) && (k in db.fts.reverse ==> db.fts.reverse[k] == db'.fts.reverse[k])
          && (k in db.ttl.byDoc <==> k in db'.ttl.byDoc) && (k in db.ttl.byDoc ==> db.ttl.byDoc[k] == db'.ttl.byDoc[k]))
  }

  /** Erasing a collection leaves no trace of it. */
  lemma ErasesEveryTrace(r: Rules, db: Db, c: Collection)
    requires DbInv(r, db) && DeleteCollection(db, c).Done?
    ensures NoTrace(DeleteCollection(db, c).db, c)
  {
    var db' := DeleteCollection(db, c).db;
    DropCollectionKeepsInv(db.docs, db.indexes, c);
    DropCollectionTidy(db.indexes, c);
    forall n | n in db'.indexes.buckets ensures exists p :: InUse(db'.indexes, p) && Name(p) == n && p.collection != c {
      var p :| InUse(db'.indexes, p) && Name(p) == n;
      assert p.collection != c;
    }
  }

  /** Erasing a collection changes nothing that belongs to any other, and no event. */
  lemma ErasesNothingElse(r: Rules, db: Db, c: Collection, d: Collection)
    requires DbInv(r, db) && DeleteCollection(db, c).Done? && d != c
    ensures SameFor(db, DeleteCollection(db, c).db, d)
    ensures DeleteCollection(db, c).db.events == db.events
  {
    DropCollectionKeepsInv(db.docs, db.indexes, c);
  }
}
