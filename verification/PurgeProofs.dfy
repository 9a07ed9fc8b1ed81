/** What one purge does: it deletes exactly the expired documents, in expiry order. */
module PurgeProofs {
  import opened ByteOrder
  import opened Documents
  import opened Keys
  import opened Storage
  import opened TtlTables
  import opened EventLog
  import opened Writes
  import opened Invariants

  ghost predicate Expired(t: Ttl, k: DocKey, now: Time) {
    k in t.byDoc && t.byDoc[k] <= now
  }

  /** The least purge key belongs to a document with that very expiry. */
  lemma LeastDue(docs: map<Collection, map<Id, Doc>>, t: Ttl) returns (k: DocKey)
    requires TtlInv(docs, t) && t.due != {}
    ensures k in t.byDoc && Least(t.due) == DueKey(k, t.byDoc[k])
    ensures ParseTtlIndexKey(Least(t.due)) == Some(TtlEntry(t.byDoc[k], k.collection, k.id))
    ensures forall j | j in t.byDoc :: t.byDoc[k] <= t.byDoc[j]
  {
    k :| k in t.byDoc && DueKey(k, t.byDoc[k]) == Least(t.due);
    DueKeyParses(k, t.byDoc[k]);
    forall j | j in t.byDoc && j != k ensures t.byDoc[k] <= t.byDoc[j] {
      var m, x := Least(t.due), DueKey(j, t.byDoc[j]);
      assert x in t.due && (x == m || Lt(m, x));
      if DueKey(j, t.byDoc[j]) == DueKey(k, t.byDoc[k]) {
        DueKeyInjective(j, t.byDoc[j], k, t.byDoc[k]);
      } else {
        TtlIndexKeyChronological(t.byDoc[k], k.collection, k.id, t.byDoc[j], j.collection, j.id);
      }
    }
  }

  /** One turn of the purge loop is an ordinary delete of the document due first. */
  lemma PurgeTurn(r: Rules, db: Db, now: Time) returns (k: DocKey, next: Db)
    requires DbInv(r, db) && db.ttl.due != {}
    ensures k in db.ttl.byDoc && Live(db.docs, k.collection, k.id)
    ensures forall j | j in db.ttl.byDoc :: db.ttl.byDoc[k] <= db.ttl.byDoc[j]
    ensures next == Mutate(r, db, k.collection, k.id, None, Clear, now)
    ensures Purge(r, db, now) == if db.ttl.byDoc[k] > now then db else Purge(r, next, now)
    ensures |next.ttl.due| < |db.ttl.due|
  {
    k := LeastDue(db.docs, db.ttl);
    next := Mutate(r, db, k.collection, k.id, None, Clear, now);
    var key := Least(db.ttl.due);
    assert DocKey(k.collection, k.id) == k;
    if db.ttl.byDoc[k] <= now {
      assert next == Mutate(r, db, k.collection, k.id, None, Keep, now).(ttl := Ttl(db.ttl.byDoc - {k}, db.ttl.due - {key}));
      assert Purge(r, db, now) == Purge(r, next, now);
    }
  }

  /** The same turn, told by its effect alone. */
  lemma PurgeTurnEffect(r: Rules, db: Db, now: Time) returns (k: DocKey, next: Db)
    requires DbInv(r, db) && db.ttl.due != {}
    ensures k in db.ttl.byDoc && Live(db.docs, k.collection, k.id)
    ensures forall j | j in db.ttl.byDoc :: db.ttl.byDoc[k] <= db.ttl.byDoc[j]
    ensures Purge(r, db, now) == if db.ttl.byDoc[k] > now then db else Purge(r, next, now)
    ensures |next.ttl.due| < |db.ttl.due|
    ensures DbInv(r, next) && (Faithful(db) ==> Faithful(next))
    ensures next.docs == db.docs[k.collection := db.docs[k.collection] - {k.id}]
    ensures next.ttl.byDoc == db.ttl.byDoc - {k}
    ensures next.events.last == db.events.last + 1
    ensures next.events.history == db.events.history + [Event(db.events.last + 1, Delete, k.collection, k.id, None)]
  {
    k, next := PurgeTurn(r, db, now);
    MutateKeepsInv(r, db, k.collection, k.id, None, Clear, now);
    ClearTtlKeepsInv(db.docs, db.ttl, k.collection, k.id);
  }

  function ExpiryOf(t: Ttl, k: DocKey): nat {
    if k in t.byDoc then t.byDoc[k] else 0
  }

  /** The expired keys in the order the purge visits them. */
  ghost predicate PurgeOrder(t: Ttl, now: Time, victims: seq<DocKey>) {
    && (forall k :: k in victims <==> Expired(t, k, now))
    && (forall i, j | 0 <= i < j < |victims| :: victims[i] != victims[j] && ExpiryOf(t, victims[i]) <= ExpiryOf(t, victims[j]))
  }

  /** The expired documents are gone; every other document is as it was. */
  ghost predicate OnlyExpiredGone(db: Db, db': Db, now: Time) {
    && db'.docs.Keys == db.docs.Keys
    && (forall c, id :: Live(db'.docs, c, id) <==> Live(db.docs, c, id) && !Expired(db.ttl, DocKey(c, id), now))
    && (forall c, id | Live(db'.docs, c, id) :: db'.docs[c][id] == db.docs[c][id])
  }

  function Unexpired(t: Ttl, now: Time): map<DocKey, Expiry> {
    map k | k in t.byDoc && t.byDoc[k] > now :: t.byDoc[k]
  }

  function DeleteEvents(victims: seq<DocKey>, last: nat): seq<Event> {
    seq(|victims|, i requires 0 <= i < |victims| => Event(last + 1 + i, Delete, victims[i].collection, victims[i].id, None))
  }

  lemma NoneExpired(db: Db, now: Time)
    requires forall k | k in db.ttl.byDoc :: db.ttl.byDoc[k] > now
    ensures OnlyExpiredGone(db, db, now) && Unexpired(db.ttl, now) == db.ttl.byDoc
    ensures PurgeOrder(db.ttl, now, [])
    ensures db.events.history == db.events.history + DeleteEvents([], db.events.last)
  {
  }

  /** Survivors keep their content and expiry; every expired document and nothing else is gone. */
  lemma {:induction false} PurgeRemovesExactlyTheExpired(r: Rules, db: Db, now: Time)
    requires DbInv(r, db)
    ensures OnlyExpiredGone(db, Purge(r, db, now), now)
    ensures Purge(r, db, now).ttl.byDoc == Unexpired(db.ttl, now)
    decreases |db.ttl.due|
  {
    if db.ttl.due == {} {
      NothingDue(db.docs, db.ttl);
      NoneExpired(db, now);
    } else {
      var k, next := PurgeTurnEffect(r, db, now);
      if db.ttl.byDoc[k] <= now {
        PurgeRemovesExactlyTheExpired(r, next, now);
        PurgeDocs(db, next, k, Purge(r, next, now), now);
      } else {
        NoneExpired(db, now);
      }
    }
  }

  lemma {:induction false} PurgeKeepsInv(r: Rules, db: Db, now: Time)
    requires DbInv(r, db)
    ensures DbInv(r, Purge(r, db, now)) && (Faithful(db) ==> Faithful(Purge(r, db, now)))
    decreases |db.ttl.due|
  {
    if db.ttl.due != {} {
      var k, next := PurgeTurnEffect(r, db, now);
      if db.ttl.byDoc[k] <= now {
        PurgeKeepsInv(r, next, now);
      }
    }
  }

  /** The history gains exactly one delete per expired document, in expiry order. */
  lemma {:induction false} PurgeLogsInExpiryOrder(r: Rules, db: Db, now: Time) returns (victims: seq<DocKey>)
    requires DbInv(r, db)
    ensures PurgeOrder(db.ttl, now, victims)
    ensures Purge(r, db, now).events.history == db.events.history + DeleteEvents(victims, db.events.last)
    decreases |db.ttl.due|
  {
    victims := [];
    if db.ttl.due == {} {
      NothingDue(db.docs, db.ttl);
      NoneExpired(db, now);
    } else {
      var k, next := PurgeTurnEffect(r, db, now);
      if db.ttl.byDoc[k] <= now {
        var rest := PurgeLogsInExpiryOrder(r, next, now);
        victims := [k] + rest;
        PurgeHistory(db, next, k, rest, Purge(r, next, now));
        PurgeSequence(db.ttl, next.ttl, k, rest, now);
      } else {
        NoneExpired(db, now);
      }
    }
  }

  lemma NothingDue(docs: map<Collection, map<Id, Doc>>, t: Ttl)
    requires TtlInv(docs, t) && t.due == {}
    ensures t.byDoc == map[]
  {
    if t.byDoc != map[] { SomethingDue(t.byDoc); }
  }

  lemma SomethingDue(byDoc: map<DocKey, Expiry>)
    requires byDoc != map[]
    ensures DueKeys(byDoc) != {}
  {
    var k :| k in byDoc;
    assert DueKey(k, byDoc[k]) in DueKeys(byDoc);
  }

  lemma PurgeDocs(db: Db, next: Db, k: DocKey, final: Db, now: Time)
    requires Live(db.docs, k.collection, k.id) && Expired(db.ttl, k, now)
    requires next.docs == db.docs[k.collection := db.docs[k.collection] - {k.id}]
    requires next.ttl.byDoc == db.ttl.byDoc - {k}
    requires OnlyExpiredGone(next, final, now)
    ensures OnlyExpiredGone(db, final, now)
    ensures Unexpired(db.ttl, now) == Unexpired(next.ttl, now)
  {
    forall c, id
      ensures Live(next.docs, c, id) <==> Live(db.docs, c, id) && DocKey(c, id) != k
      ensures Expired(next.ttl, DocKey(c, id), now) <==> Expired(db.ttl, DocKey(c, id), now) && DocKey(c, id) != k
    {
      assert DocKey(c, id) == k <==> c == k.collection && id == k.id;
    }
  }

  lemma PurgeSequence(t: Ttl, next: Ttl, k: DocKey, rest: seq<DocKey>, now: Time)
    requires Expired(t, k, now) && next.byDoc == t.byDoc - {k}
    requires forall j | j in t.byDoc :: t.byDoc[k] <= t.byDoc[j]
    requires PurgeOrder(next, now, rest)
    ensures PurgeOrder(t, now, [k] + rest)
    ensures Unexpired(t, now) == Unexpired(next, now)
  {
    var all := [k] + rest;
    assert forall j :: Expired(next, j, now) <==> Expired(t, j, now) && j != k;
    assert forall j :: j in all <==> j == k || j in rest;
    forall i, j | 0 <= i < j < |all|
      ensures all[i] != all[j] && ExpiryOf(t, all[i]) <= ExpiryOf(t, all[j])
    {
      assert all[j] == rest[j - 1] && rest[j - 1] in rest;
      assert i > 0 ==> all[i] == rest[i - 1] && rest[i - 1] in rest;
    }
  }

  lemma PurgeHistory(db: Db, next: Db, k: DocKey, rest: seq<DocKey>, final: Db)
    requires next.events.last == db.events.last + 1
    requires next.events.history == db.events.history + [Event(db.events.last + 1, Delete, k.collection, k.id, None)]
    requires final.events.history == next.events.history + DeleteEvents(rest, next.events.last)
    ensures final.events.history == db.events.history + DeleteEvents([k] + rest, db.events.last)
  {
    var all := DeleteEvents([k] + rest, db.events.last);
    assert all == [Event(db.events.last + 1, Delete, k.collection, k.id, None)] + DeleteEvents(rest, next.events.last);
  }
}
