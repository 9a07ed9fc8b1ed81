/** What each write leaves behind, told without naming how it is computed: the one document, its
    index entries, its search entry, its expiry and its event change, and nothing else does. */
module Effects {
  import opened ByteOrder
  import opened Documents
  import opened Keys
  import opened Storage
  import opened SecondaryIndex
  import opened FullText
  import opened TtlTables
  import opened EventLog
  import opened Writes
  import opened Invariants
  import opened PurgeProofs

  // ---------------------------------------------------------------- what one write changes

  /** No index was added, listed or dropped. */
  ghost predicate SameIndexes(ix: Indexes, ix': Indexes) {
    ix'.ready == ix.ready && ix'.building == ix.building && ix'.buckets.Keys == ix.buckets.Keys
  }

  /** No index and no search configuration was added, listed, dropped or changed. */
  ghost predicate SameDefinitions(db: Db, db': Db) {
    SameIndexes(db.indexes, db'.indexes) && db'.fts.config == db.fts.config
  }

  /** The collection exists, the document is `now`, every other document is as it was. */
  ghost predicate OnlyDocument(db: Db, db': Db, c: Collection, id: Id, now: Option<Doc>) {
    && db'.docs.Keys == db.docs.Keys + {c}
    && Current(db', c, id) == now
    && forall d, j | d != c || j != id :: Current(db', d, j) == Current(db, d, j)
  }

  /** One event more, of the next number, and one pending delivery of it that nobody has tried. */
  ghost predicate OneEvent(v: Events, v': Events, c: Collection, id: Id, was: Option<Doc>, now: Option<Doc>, time: Time) {
    var n := v.last + 1;
    && v'.last == n
    && |v'.history| == |v.history| + 1 && v.history < v'.history
    && var e := v'.history[|v.history|];
    && e.seqno == n && e.collection == c && e.id == id && e.doc == now
    && (e.action == Delete <==> now.None?)
    && (e.action == Insert <==> now.Some? && was.None?)
    && v'.outbox.Keys == v.outbox.Keys + {n}
    && v'.outbox[n] == Delivery(e, Pending, 0, 0, time)
    && forall k | k in v.outbox && k != n :: v'.outbox[k] == v.outbox[k]
  }

  /** Every index of the collection, finished or under construction, holds of this document exactly
      its present value; every other entry anywhere is as it was. */
  ghost predicate IndexesFollow(ix: Indexes, ix': Indexes, c: Collection, id: Id, now: Option<Doc>) {
    forall p | InUse(ix, p) ::
      && Name(p) in ix.buckets && Name(p) in ix'.buckets
      && forall e :: e in ix'.buckets[Name(p)] <==>
           if p.collection == c && e.id == id
           then now.Some? && p.field in now.value && e.value == EncodeIndexValue(now.value[p.field])
           else e in ix.buckets[Name(p)]
  }

  /** The search tables know the document by exactly its present tokens, and every other as before. */
  ghost predicate SearchFollows(r: Rules, t: Fts, t': Fts, c: Collection, id: Id, now: Option<Doc>) {
    forall k ::
      if k == DocKey(c, id)
      then (k in t'.reverse <==> now.Some? && c in t.config && r.docTokens(now.value, t.config[c]) != {})
           && (k in t'.reverse ==> t'.reverse[k] == r.docTokens(now.value, t.config[c]))
      else (k in t'.reverse <==> k in t.reverse) && (k in t.reverse ==> t'.reverse[k] == t.reverse[k])
  }

  /** The document became `now` (None: is gone), and every table follows. */
  ghost predicate Wrote(r: Rules, db: Db, db': Db, c: Collection, id: Id, now: Option<Doc>, time: Time) {
    && DbInv(r, db')
    && SameDefinitions(db, db')
    && OnlyDocument(db, db', c, id, now)
    && OneEvent(db.events, db'.events, c, id, Current(db, c, id), now, time)
    && IndexesFollow(db.indexes, db'.indexes, c, id, now)
    && SearchFollows(r, db.fts, db'.fts, c, id, now)
  }

  // ---------------------------------------------------------------- one document step

  lemma MutateIndexes(r: Rules, db: Db, c: Collection, id: Id, now: Option<Doc>, ttl: TtlChange, time: Time)
    requires IndexInv(db.docs, db.indexes) && c in db.docs && (now.None? ==> id in db.docs[c])
    ensures IndexesFollow(db.indexes, Mutate(r, db, c, id, now, ttl, time).indexes, c, id, now)
    ensures SameIndexes(db.indexes, Mutate(r, db, c, id, now, ttl, time).indexes)
  {
    var was := Current(db, c, id);
    var ix, ix' := db.indexes, Mutate(r, db, c, id, now, ttl, time).indexes;
    forall p | InUse(ix, p)
      ensures Name(p) in ix.buckets && Name(p) in ix'.buckets
      ensures forall e :: e in ix'.buckets[Name(p)] <==>
                if p.collection == c && e.id == id
                then now.Some? && p.field in now.value && e.value == EncodeIndexValue(now.value[p.field])
                else e in ix.buckets[Name(p)]
    {
      ReindexBucket(ix, c, id, was, now, p);
      IndexedReplaced(db.docs[c], id, now, p.field);
    }
  }

  lemma MutateSearch(r: Rules, db: Db, c: Collection, id: Id, now: Option<Doc>, ttl: TtlChange, time: Time)
    requires TextInv(r, db.docs, db.fts) && c in db.docs && (now.None? ==> id in db.docs[c])
    ensures SearchFollows(r, db.fts, Mutate(r, db, c, id, now, ttl, time).fts, c, id, now)
    ensures Mutate(r, db, c, id, now, ttl, time).fts.config == db.fts.config
  {
    RetextKeepsInv(r, db.docs, db.fts, c, id, now);
    var db' := Mutate(r, db, c, id, now, ttl, time);
    forall k | k != DocKey(c, id) && k in db.fts.reverse
      ensures k in db'.fts.reverse && db'.fts.reverse[k] == db.fts.reverse[k]
    {
      assert k == DocKey(k.collection, k.id);
    }
  }

  lemma MutateDocuments(r: Rules, db: Db, c: Collection, id: Id, now: Option<Doc>, ttl: TtlChange, time: Time)
    requires c in db.docs && (now.None? ==> id in db.docs[c])
    ensures OnlyDocument(db, Mutate(r, db, c, id, now, ttl, time), c, id, now)
  {
  }

  lemma MutateEvents(r: Rules, db: Db, c: Collection, id: Id, now: Option<Doc>, ttl: TtlChange, time: Time)
    requires c in db.docs && (now.None? ==> id in db.docs[c])
    ensures OneEvent(db.events, Mutate(r, db, c, id, now, ttl, time).events, c, id, Current(db, c, id), now, time)
  {
  }

  /** What a change of expiry leaves in the table by document. */
  ghost predicate Retimed(t: Ttl, t': Ttl, c: Collection, id: Id, change: TtlChange) {
    match change
    case Keep => t'.byDoc == t.byDoc
    case Clear => t'.byDoc == t.byDoc - {DocKey(c, id)}
    case ExpireAt(e) => t'.byDoc == t.byDoc[DocKey(c, id) := e]
  }

  lemma RetimeExpires(docs: map<Collection, map<Id, Doc>>, t: Ttl, c: Collection, id: Id, change: TtlChange)
    requires TtlInv(docs, t)
    ensures Retimed(t, Retime(t, c, id, change), c, id, change)
  {
    match change
    case Keep =>
    case Clear => ClearTtlKeepsInv(docs, t, c, id);
    case ExpireAt(e) => SetExpires(docs, t, c, id, e);
  }

  lemma SetExpires(docs: map<Collection, map<Id, Doc>>, t: Ttl, c: Collection, id: Id, e: Expiry)
    requires TtlInv(docs, t)
    ensures SetTtl(t, c, id, e).byDoc == t.byDoc[DocKey(c, id) := e]
  {
    ClearTtlKeepsInv(docs, t, c, id);
    var k := DocKey(c, id);
    assert (t.byDoc - {k})[k := e] == t.byDoc[k := e];
  }

  lemma MutateExpiries(r: Rules, db: Db, c: Collection, id: Id, now: Option<Doc>, ttl: TtlChange, time: Time)
    requires TtlInv(db.docs, db.ttl) && c in db.docs && (now.None? ==> id in db.docs[c])
    ensures Retimed(db.ttl, Mutate(r, db, c, id, now, ttl, time).ttl, c, id, ttl)
  {
    RetimeExpires(db.docs, db.ttl, c, id, ttl);
  }

  lemma MutateWrites(r: Rules, db: Db, c: Collection, id: Id, now: Option<Doc>, ttl: TtlChange, time: Time)
    requires DbInv(r, db) && c in db.docs
    requires now.None? ==> id in db.docs[c] && ttl.Clear?
    requires ttl.ExpireAt? ==> ValidNames(c, id) && now.Some?
    ensures Wrote(r, db, Mutate(r, db, c, id, now, ttl, time), c, id, now, time)
  {
    MutateKeepsInv(r, db, c, id, now, ttl, time);
    MutateIndexes(r, db, c, id, now, ttl, time);
    MutateSearch(r, db, c, id, now, ttl, time);
    MutateDocuments(r, db, c, id, now, ttl, time);
    MutateEvents(r, db, c, id, now, ttl, time);
  }

  lemma OnlyDocumentThrough(db: Db, db1: Db, db': Db, c: Collection, id: Id, now: Option<Doc>)
    requires db1 == EnsureCollection(db, c) && OnlyDocument(db1, db', c, id, now)
    ensures OnlyDocument(db, db', c, id, now) && Current(db1, c, id) == Current(db, c, id)
  {
    assert forall d, j :: Current(db1, d, j) == Current(db, d, j);
  }

  /** A write that may have created the collection first. */
  lemma EnsureAndMutate(r: Rules, db: Db, c: Collection, id: Id, now: Option<Doc>, ttl: TtlChange, time: Time)
    requires DbInv(r, db) && (now.None? ==> Live(db.docs, c, id) && ttl.Clear?)
    requires ttl.ExpireAt? ==> ValidNames(c, id) && now.Some?
    ensures Wrote(r, db, Mutate(r, EnsureCollection(db, c), c, id, now, ttl, time), c, id, now, time)
    ensures Retimed(db.ttl, Mutate(r, EnsureCollection(db, c), c, id, now, ttl, time).ttl, c, id, ttl)
  {
    var db1 := EnsureCollection(db, c);
    EnsureCollectionKeepsInv(r, db, c);
    MutateWrites(r, db1, c, id, now, ttl, time);
    MutateExpiries(r, db1, c, id, now, ttl, time);
    OnlyDocumentThrough(db, db1, Mutate(r, db1, c, id, now, ttl, time), c, id, now);
  }

  // ---------------------------------------------------------------- put

  /** How long a put document lives: of the expiries only its own changes, to `now` plus its lifetime
      or to none. */
  ghost predicate Expires(db: Db, db': Db, c: Collection, id: Id, expireIn: Lifetime, now: Time) {
    && (forall k | k != DocKey(c, id) :: (k in db'.ttl.byDoc <==> k in db.ttl.byDoc)
                                         && (k in db.ttl.byDoc ==> db'.ttl.byDoc[k] == db.ttl.byDoc[k]))
    && (DocKey(c, id) in db'.ttl.byDoc <==> expireIn.Lasts?)
    && (expireIn.Lasts? ==> db'.ttl.byDoc[DocKey(c, id)] == now + expireIn.seconds)
  }

  /** A put that succeeds leaves exactly the body under the id, to expire when it should. */
  lemma PutWrites(r: Rules, db: Db, c: Collection, id: Id, body: Body, expected: Expected, expireIn: Lifetime, now: Time)
    requires DbInv(r, db)
    ensures var o := Put(r, db, c, id, body, expected, expireIn, now);
            o.Done? ==> body.Object? && o.doc == Some(body.fields)
                        && Wrote(r, db, o.db, c, id, Some(body.fields), now)
                        && Expires(db, o.db, c, id, expireIn, now)
  {
    var o := Put(r, db, c, id, body, expected, expireIn, now);
    if o.Done? {
      EnsureAndMutate(r, db, c, id, Some(body.fields), ExpiryFor(now, expireIn), now);
    }
  }

  /** A document that was put is there until a purge at or after its last second, and for good
      without a lifetime. */
  lemma PutLivesItsLifetime(r: Rules, db: Db, c: Collection, id: Id, body: Body, expected: Expected, expireIn: Lifetime, now: Time, t: Time)
    requires DbInv(r, db) && Put(r, db, c, id, body, expected, expireIn, now).Done?
    ensures var db' := Put(r, db, c, id, body, expected, expireIn, now).db;
            Current(Purge(r, db', t), c, id)
            == if expireIn.Lasts? && t >= now + expireIn.seconds then None else Some(body.fields)
  {
    PutWrites(r, db, c, id, body, expected, expireIn, now);
    var db' := Put(r, db, c, id, body, expected, expireIn, now).db;
    PurgeRemovesExactlyTheExpired(r, db', t);
    assert Live(db'.docs, c, id);
    assert Live(Purge(r, db', t).docs, c, id) <==> !Expired(db'.ttl, DocKey(c, id), t);
  }

  /** Which error a put reports, and when it reports none. */
  lemma PutRefuses(r: Rules, db: Db, c: Collection, id: Id, body: Body, expected: Expected, expireIn: Lifetime, now: Time)
    ensures var o := Put(r, db, c, id, body, expected, expireIn, now);
            var named := ValidCollection(c) && ValidSegment(id);
            var met := expected == Unconditional || (if Live(db.docs, c, id) then Matches(db.docs[c][id], expected) else expected == Star);
            && (o == Fails(InvalidName) <==> !named)
            && (o == Fails(InvalidJson) <==> named && !body.Object?)
            && (o == Fails(Rejected) <==> named && body.Object? && !r.accepts(c, body.fields))
            && (o == Fails(PreconditionFailed) <==> named && body.Object? && r.accepts(c, body.fields) && !met)
            && (o.Done? <==> named && body.Object? && r.accepts(c, body.fields) && met)
  {
  }

  // ---------------------------------------------------------------- create, patch, delete

  /** A create that succeeds stores the body under the first of the candidates that was free, to
      expire when it should. */
  lemma CreateWrites(r: Rules, db: Db, c: Collection, body: Body, candidates: seq<Id>, expireIn: Lifetime, now: Time) returns (i: nat)
    requires DbInv(r, db) && |candidates| == ID_ATTEMPTS
    requires forall id | id in candidates :: ValidSegment(id)
    ensures var o := Create(r, db, c, body, candidates, expireIn, now);
            o.Done? ==> body.Object? && o.doc == Some(body.fields)
                        && i < 16 && !Live(db.docs, c, candidates[i]) && (forall j | 0 <= j < i :: Live(db.docs, c, candidates[j]))
                        && Wrote(r, db, o.db, c, candidates[i], Some(body.fields), now)
                        && Expires(db, o.db, c, candidates[i], expireIn, now)
  {
    i := 0;
    var o := Create(r, db, c, body, candidates, expireIn, now);
    if o.Done? {
      var db1 := EnsureCollection(db, c);
      i := FreshIdIsFirst(db1.docs[c], candidates);
      EnsureAndMutate(r, db, c, candidates[i], Some(body.fields), if expireIn.Lasts? then ExpireAt(now + expireIn.seconds) else Keep, now);
      assert DocKey(c, candidates[i]) !in db.ttl.byDoc;
    }
  }

  lemma {:induction false} FreshIdIsFirst(taken: map<Id, Doc>, candidates: seq<Id>) returns (i: nat)
    requires FreshId(taken, candidates).Some?
    ensures i < |candidates| && FreshId(taken, candidates) == Some(candidates[i]) && candidates[i] !in taken
    ensures forall j | 0 <= j < i :: candidates[j] in taken
  {
    if candidates[0] !in taken {
      i := 0;
    } else {
      var k := FreshIdIsFirst(taken, candidates[1..]);
      i := k + 1;
    }
  }

  lemma CreateRefuses(r: Rules, db: Db, c: Collection, body: Body, candidates: seq<Id>, expireIn: Lifetime, now: Time)
    requires |candidates| == ID_ATTEMPTS
    ensures var o := Create(r, db, c, body, candidates, expireIn, now);
            var free := exists id :: id in candidates && !Live(db.docs, c, id);
            && (o == Fails(InvalidName) <==> !ValidCollection(c))
            && (o == Fails(InvalidJson) <==> ValidCollection(c) && !body.Object?)
            && (o == Fails(Rejected) <==> ValidCollection(c) && body.Object? && !r.accepts(c, body.fields))
            && (o == Fails(Exhausted) <==> ValidCollection(c) && body.Object? && r.accepts(c, body.fields) && !free)
            && (o.Done? <==> ValidCollection(c) && body.Object? && r.accepts(c, body.fields) && free)
  {
    var db1 := EnsureCollection(db, c);
    FreshIdIsCandidate(db1.docs[c], candidates);
    assert forall id :: id in db1.docs[c] <==> Live(db.docs, c, id);
  }

  lemma PatchStep(r: Rules, db: Db, c: Collection, id: Id, body: Body, expected: Expected, now: Time)
    requires Patch(r, db, c, id, body, expected, now).Done?
    ensures var o := Patch(r, db, c, id, body, expected, now);
            && Live(db.docs, c, id) && o.doc.Some? && Merges(db.docs[c][id], body, o.doc.value)
            && o.db == Mutate(r, EnsureCollection(db, c), c, id, o.doc, Keep, now)
  {
    PatchIsMutate(r, db, c, id, body, expected, now);
  }

  /** A patch that succeeds leaves every patched field with its new value and every other field as it
      was; the expiry stays. */
  lemma PatchWrites(r: Rules, db: Db, c: Collection, id: Id, body: Body, expected: Expected, now: Time)
    requires DbInv(r, db)
    ensures var o := Patch(r, db, c, id, body, expected, now);
            o.Done? ==> Live(db.docs, c, id) && o.doc.Some?
                        && Wrote(r, db, o.db, c, id, o.doc, now)
                        && Merges(db.docs[c][id], body, o.doc.value)
                        && o.db.ttl.byDoc == db.ttl.byDoc
  {
    var o := Patch(r, db, c, id, body, expected, now);
    if o.Done? {
      PatchStep(r, db, c, id, body, expected, now);
      EnsureAndMutate(r, db, c, id, o.doc, Keep, now);
    }
  }

  /** The merge of a body over a document, field by field; `null` merges nothing. */
  ghost predicate Merges(was: Doc, body: Body, now: Doc) {
    forall f ::
      if body.Object? && f in body.fields then f in now && now[f] == body.fields[f]
      else (f in now <==> f in was) && (f in was ==> now[f] == was[f])
  }

  lemma PatchRefuses(r: Rules, db: Db, c: Collection, id: Id, body: Body, expected: Expected, now: Time)
    ensures var o := Patch(r, db, c, id, body, expected, now);
            var named := ValidCollection(c) && ValidSegment(id) && !body.Malformed?;
            var found := named && Live(db.docs, c, id);
            var met := found && (expected == Unconditional || Matches(db.docs[c][id], expected));
            && (o == Fails(InvalidName) <==> !ValidCollection(c) || !ValidSegment(id))
            && (o == Fails(InvalidJson) <==> ValidCollection(c) && ValidSegment(id) && (body.Malformed? || (met && body.NotObject?)))
            && (o == Fails(NotFound) <==> named && !found)
            && (o == Fails(PreconditionFailed) <==> found && !met)
            && (o == Fails(Rejected) <==> met && (body.Object? || body.NullText?) && !r.accepts(c, db.docs[c][id] + Patched(body)))
            && (o.Done? <==> met && (body.Object? || body.NullText?) && r.accepts(c, db.docs[c][id] + Patched(body)))
  {
  }

  /** A delete that succeeds leaves neither the document nor an expiry. */
  lemma RemoveWrites(r: Rules, db: Db, c: Collection, id: Id, expected: Expected, now: Time)
    requires DbInv(r, db)
    ensures var o := Remove(r, db, c, id, expected, now);
            o.Done? ==> Live(db.docs, c, id) && o.doc == None
                        && Wrote(r, db, o.db, c, id, None, now)
                        && o.db.ttl.byDoc == db.ttl.byDoc - {DocKey(c, id)}
  {
    var o := Remove(r, db, c, id, expected, now);
    if o.Done? {
      MutateWrites(r, db, c, id, None, Clear, now);
      MutateExpiries(r, db, c, id, None, Clear, now);
    }
  }

  lemma RemoveRefuses(r: Rules, db: Db, c: Collection, id: Id, expected: Expected, now: Time)
    ensures var o := Remove(r, db, c, id, expected, now);
            var named := ValidCollection(c) && ValidSegment(id);
            var found := named && Live(db.docs, c, id);
            var met := found && (expected == Unconditional || Matches(db.docs[c][id], expected));
            && (o == Fails(InvalidName) <==> !named)
            && (o == Fails(NotFound) <==> named && !found)
            && (o == Fails(PreconditionFailed) <==> found && !met)
            && (o.Done? <==> met)
  {
  }

  // ---------------------------------------------------------------- one operation of a transaction

  /** A put operation leaves the body, a patch operation the merge, a delete operation nothing. */
  ghost predicate OpResult(db: Db, op: TxOp, doc: Option<Doc>) {
    match op.action
    case OpPut => op.body.Object? && doc == Some(op.body.fields)
    case OpPatch => Live(db.docs, op.collection, op.id) && doc.Some? && Merges(db.docs[op.collection][op.id], op.body, doc.value)
    case OpDelete => Live(db.docs, op.collection, op.id) && doc == None
    case OpUnknown => false
  }

  lemma TxStepResult(r: Rules, db: Db, op: TxOp, now: Time)
    requires TxStep(r, db, op, now).Done?
    ensures OpResult(db, op, TxStep(r, db, op, now).doc)
  {
  }

  lemma TxStepIsMutate(r: Rules, db: Db, op: TxOp, now: Time)
    requires TxStep(r, db, op, now).Done?
    ensures var o, db1 := TxStep(r, db, op, now), EnsureCollection(db, op.collection);
            && (o.doc.None? ==> op.id in db1.docs[op.collection])
            && o.db == Mutate(r, db1, op.collection, op.id, o.doc, if op.action == OpPatch then Keep else Clear, now)
  {
  }

  /** One operation leaves what the single call would: a put no expiry, a patch the one there was, a
      delete none. */
  lemma TxStepWrites(r: Rules, db: Db, op: TxOp, now: Time)
    requires DbInv(r, db) && TxStep(r, db, op, now).Done?
    ensures var o := TxStep(r, db, op, now);
            && OpResult(db, op, o.doc)
            && Wrote(r, db, o.db, op.collection, op.id, o.doc, now)
            && o.db.ttl.byDoc == if op.action == OpPatch then db.ttl.byDoc else db.ttl.byDoc - {DocKey(op.collection, op.id)}
  {
    TxStepResult(r, db, op, now);
    TxStepIsMutate(r, db, op, now);
    EnsureAndMutate(r, db, op.collection, op.id, TxStep(r, db, op, now).doc, if op.action == OpPatch then Keep else Clear, now);
  }

  /** Which error one operation reports, and when it reports none. Unlike a put of its own, one in a
      transaction does not accept a star for a missing document. */
  lemma TxStepRefuses(r: Rules, db: Db, op: TxOp, now: Time)
    ensures var o := TxStep(r, db, op, now);
            var c, id, live := op.collection, op.id, Live(db.docs, op.collection, op.id);
            var named := ValidCollection(c) && ValidSegment(id);
            var met := op.expected == Unconditional || (live && Matches(db.docs[c][id], op.expected));
            var put, patch, delete := op.action == OpPut, op.action == OpPatch, op.action == OpDelete;
            var merges := op.body.Object? || op.body.NullText?;
            && (o == Fails(InvalidName) <==> !named)
            && (o == Fails(InvalidTransaction) <==> named && op.action == OpUnknown)
            && (o == Fails(NotFound) <==> named && (patch || delete) && !live)
            && (o == Fails(PreconditionFailed) <==>
                  named && !met && ((put && op.body.Object? && r.accepts(c, op.body.fields)) || ((patch || delete) && live)))
            && (o == Fails(InvalidJson) <==> named && ((put && !op.body.Object?) || (patch && live && met && !merges)))
            && (o == Fails(Rejected) <==>
                  named && ((put && op.body.Object? && !r.accepts(c, op.body.fields))
                            || (patch && live && met && merges && !r.accepts(c, db.docs[c][id] + Patched(op.body)))))
            && (o.Done? <==>
                  named && met && ((put && op.body.Object? && r.accepts(c, op.body.fields))
                                   || (patch && live && merges && r.accepts(c, db.docs[c][id] + Patched(op.body)))
                                   || (delete && live)))
  {
  }

  /** A transaction runs its operations if and only if there are 1 to 100 known ones of at most 4 MiB
      together; otherwise it is refused before the first. */
  lemma TransactRuns(r: Rules, db: Db, ops: seq<TxOp>, now: Time)
    ensures Transact(r, db, ops, now)
            == if 1 <= |ops| <= 100 && SumOfBytes(ops) <= 4194304 && (forall op | op in ops :: op.action != OpUnknown)
               then TxFold(r, db, ops, now) else Aborted(InvalidTransaction)
  {
    SumsAgree(ops);
    assert forall i | 0 <= i < |ops| :: ops[i] in ops;
  }

  function SumOfBytes(ops: seq<TxOp>): nat {
    if ops == [] then 0 else ops[0].bytes + SumOfBytes(ops[1..])
  }

  lemma {:induction false} SumOfFront(ops: seq<TxOp>)
    requires ops != []
    ensures SumOfBytes(ops) == SumOfBytes(ops[..|ops| - 1]) + ops[|ops| - 1].bytes
  {
    if |ops| > 1 {
      SumOfFront(ops[1..]);
      assert ops[1..][..|ops| - 2] == ops[..|ops| - 1][1..];
    }
  }

  lemma {:induction false} SumsAgree(ops: seq<TxOp>)
    ensures TotalBytes(ops) == SumOfBytes(ops)
  {
    if ops != [] {
      SumsAgree(ops[..|ops| - 1]);
      SumOfFront(ops);
    }
  }

  /** What a committed transaction leaves under an id is the result of the last operation that
      addressed it, and what was there before if none did. */
  lemma {:induction false} LastOperationWins(r: Rules, db: Db, ops: seq<TxOp>, now: Time, c: Collection, id: Id)
    requires DbInv(r, db) && TxFold(r, db, ops, now).Committed?
    ensures var o := TxFold(r, db, ops, now);
            && |o.results| == |ops| && DbInv(r, o.db) && SameDefinitions(db, o.db)
            && Current(o.db, c, id) == LastResult(ops, o.results, c, id, Current(db, c, id))
  {
    if ops != [] {
      var front, op := ops[..|ops| - 1], ops[|ops| - 1];
      LastOperationWins(r, db, front, now, c, id);
      var before := TxFold(r, db, front, now);
      TxStepWrites(r, before.db, op, now);
      var results := TxFold(r, db, ops, now).results;
      assert results[..|ops| - 1] == before.results;
    }
  }

  function LastResult(ops: seq<TxOp>, results: seq<Option<Doc>>, c: Collection, id: Id, initial: Option<Doc>): Option<Doc>
    requires |results| == |ops|
  {
    if ops == [] then initial
    else
      var last := |ops| - 1;
      if ops[last].collection == c && ops[last].id == id then results[last]
      else LastResult(ops[..last], results[..last], c, id, initial)
  }

  /** A transaction that fails reports the error of its first failing operation. */
  lemma {:induction false} FirstFailureIsReported(r: Rules, db: Db, ops: seq<TxOp>, now: Time) returns (k: nat)
    requires TxFold(r, db, ops, now).Aborted?
    ensures k < |ops| && TxFold(r, db, ops[..k], now).Committed?
    ensures TxStep(r, TxFold(r, db, ops[..k], now).db, ops[k], now) == Fails(TxFold(r, db, ops, now).error)
  {
    var front := ops[..|ops| - 1];
    if TxFold(r, db, front, now).Aborted? {
      k := FirstFailureIsReported(r, db, front, now);
      assert front[..k] == ops[..k];
    } else {
      k := |ops| - 1;
    }
  }

  // ---------------------------------------------------------------- purge and collections

  /** A purge changes no definition, and no expiry but those it removes. */
  lemma {:induction false} PurgeKeepsDefinitions(r: Rules, db: Db, now: Time)
    requires DbInv(r, db)
    ensures SameDefinitions(db, Purge(r, db, now)) && DbInv(r, Purge(r, db, now))
    decreases |db.ttl.due|
  {
    if db.ttl.due != {} {
      var k, next := PurgeTurn(r, db, now);
      MutateWrites(r, db, k.collection, k.id, None, Clear, now);
      if db.ttl.byDoc[k] <= now { PurgeKeepsDefinitions(r, next, now); }
    }
  }

  /** Creating a collection is refused only for its name; it makes an empty one unless there is one,
      and changes nothing else. */
  lemma CreateCollectionMakes(db: Db, c: Collection)
    ensures var o := CreateCollection(db, c);
            && (o.Done? <==> ValidCollection(c)) && (o.Fails? ==> o.error == InvalidName)
            && (o.Done? ==>
                  && o.db.docs.Keys == db.docs.Keys + {c} && (forall d, id :: Current(o.db, d, id) == Current(db, d, id))
                  && (c !in db.docs ==> EffectiveCount(o.db, c) == 0)
                  && (forall d | d != c || c in db.docs :: EffectiveCount(o.db, d) == EffectiveCount(db, d))
                  && o.db.indexes == db.indexes && o.db.fts == db.fts && o.db.ttl == db.ttl && o.db.events == db.events)
  {
  }

  lemma DeleteCollectionRefuses(db: Db, c: Collection)
    ensures var o := DeleteCollection(db, c);
            && (o.Done? <==> ValidCollection(c) && c in db.docs)
            && (o == Fails(InvalidName) <==> !ValidCollection(c))
            && (o == Fails(NotFound) <==> ValidCollection(c) && c !in db.docs)
  {
  }
}
