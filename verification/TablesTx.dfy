/** The counter, TTL and event tables inside an update transaction. */
module TablesTx {
  import opened ByteOrder
  import opened Documents
  import opened Keys
  import opened Storage
  import opened TtlTables
  import opened EventLog
  import opened Writes
  import opened Bolt

  // ---------------------------------------------------------------- counter

  method GetCollectionCount(tx: Tx, c: Collection) returns (n: int)
    requires c in tx.docs
    ensures n == EffectiveCount(tx.View(), c)
  {
    if c !in tx.counts { return |tx.docs[c]|; }
    return tx.counts[c];
  }

  method IncrementCollectionCount(tx: Tx, c: Collection, delta: int)
    requires c in tx.docs
    modifies tx`counts
    ensures tx.counts == Counted(old(tx.View()), c, delta)
  {
    var count := GetCollectionCount(tx, c);
    var n := count + delta;
    if n < 0 { n := 0; }
    tx.counts := tx.counts[c := n];
  }

  // ---------------------------------------------------------------- TTL

  method ClearDocumentTtl(tx: Tx, c: Collection, id: Id)
    modifies tx`ttl
    ensures tx.ttl == ClearTtl(old(tx.ttl), c, id)
  {
    var k := DocKey(c, id);
    if k in tx.ttl.byDoc {
      var e := tx.ttl.byDoc[k];
      tx.ttl := tx.ttl.(due := tx.ttl.due - {TtlIndexKey(e, c, id)});
    }
    tx.ttl := tx.ttl.(byDoc := tx.ttl.byDoc - {k});
  }

  /** `setDocumentTTL` past its clock: the previous expiry goes first. */
  method SetDocumentTtl(tx: Tx, c: Collection, id: Id, e: Expiry)
    modifies tx`ttl
    ensures tx.ttl == SetTtl(old(tx.ttl), c, id, e)
  {
    ClearDocumentTtl(tx, c, id);
    tx.ttl := tx.ttl.(byDoc := tx.ttl.byDoc[DocKey(c, id) := e]);
    tx.ttl := tx.ttl.(due := tx.ttl.due + {TtlIndexKey(e, c, id)});
  }

  /** `deleteTTLForCollectionTx`: one cursor walk over each table. */
  method DeleteTtlForCollection(tx: Tx, c: Collection)
    modifies tx`ttl
    ensures tx.ttl == DropTtl(old(tx.ttl), c)
  {
    DeleteDueForCollection(tx, c);
    DeleteExpiriesForCollection(tx, c);
  }

  function DueOf(keys: set<string>, c: Collection): set<string> {
    set key | key in keys && KeyCollection(key) == Some(c)
  }

  method DeleteDueForCollection(tx: Tx, c: Collection)
    modifies tx`ttl
    ensures tx.ttl.byDoc == old(tx.ttl.byDoc) && tx.ttl.due == DropTtl(old(tx.ttl), c).due
  {
    var keys := Ascending(tx.ttl.due);
    ghost var was := tx.ttl;
    for i := 0 to |keys|
      invariant tx.ttl.byDoc == was.byDoc
      invariant tx.ttl.due == was.due - DueOf(Elements(keys[..i]), c)
    {
      DueOfGrows(keys, i, c);
      if KeyCollection(keys[i]) == Some(c) {
        tx.ttl := tx.ttl.(due := tx.ttl.due - {keys[i]});
      }
    }
    DueOfAll(was, keys, c);
  }

  lemma DueOfGrows(keys: seq<string>, i: nat, c: Collection)
    requires i < |keys|
    ensures DueOf(Elements(keys[..i + 1]), c) ==
            DueOf(Elements(keys[..i]), c) + if KeyCollection(keys[i]) == Some(c) then {keys[i]} else {}
  {
    ElementsAppend(keys, i);
  }

  lemma DueOfAll(t: Ttl, keys: seq<string>, c: Collection)
    requires forall key :: key in keys <==> key in t.due
    ensures t.due - DueOf(Elements(keys[..|keys|]), c) == DropTtl(t, c).due
  {
    ElementsWhole(keys);
  }

  method DeleteExpiriesForCollection(tx: Tx, c: Collection)
    modifies tx`ttl
    ensures tx.ttl.due == old(tx.ttl.due) && tx.ttl.byDoc == DropTtl(old(tx.ttl), c).byDoc
  {
    ghost var was := tx.ttl;
    var doomed := set k | k in tx.ttl.byDoc && k.collection == c;
    while doomed != {}
      invariant tx.ttl.due == was.due
      invariant doomed == set k | k in tx.ttl.byDoc && k.collection == c
      invariant forall k: DocKey | k.collection != c ::
                  (k in tx.ttl.byDoc <==> k in was.byDoc) && (k in was.byDoc ==> tx.ttl.byDoc[k] == was.byDoc[k])
      decreases |doomed|
    {
      var k :| k in doomed;
      tx.ttl := tx.ttl.(byDoc := tx.ttl.byDoc - {k});
      doomed := doomed - {k};
    }
    forall k | k in tx.ttl.byDoc ensures k.collection != c {
      assert k in tx.ttl.byDoc && k.collection == c ==> k in doomed;
    }
  }

  // ---------------------------------------------------------------- events

  /** `nextEventSequenceTx`. */
  method NextEventSequence(tx: Tx) returns (next: nat)
    modifies tx`events
    ensures next == old(tx.events.last) + 1 && tx.events == old(tx.events).(last := next)
  {
    next := tx.events.last + 1;
    tx.events := tx.events.(last := next);
  }

  lemma TrimSteps(log: map<nat, Event>)
    requires |log| > MAX_RETAINED_EVENTS
    ensures log.Keys != {} && Trim(log) == Trim(log - {FirstKey(log.Keys)})
    ensures |log - {FirstKey(log.Keys)}| == |log| - 1
  {
    assert log != map[];
    var rest := log - {FirstKey(log.Keys)};
    assert |log| == |log.Keys| && |rest| == |rest.Keys| && rest.Keys == log.Keys - {FirstKey(log.Keys)};
  }

  /** `trimEventLogTx`: delete from the front while too many keys remain. */
  method TrimEventLog(tx: Tx)
    modifies tx`events
    ensures tx.events == old(tx.events).(log := Trim(old(tx.events.log)))
  {
    var n := |tx.events.log|;
    while n > MAX_RETAINED_EVENTS
      invariant n == |tx.events.log|
      invariant tx.events == old(tx.events).(log := tx.events.log)
      invariant Trim(tx.events.log) == Trim(old(tx.events.log))
    {
      TrimSteps(tx.events.log);
      var k := FirstKey(tx.events.log.Keys);
      tx.events := tx.events.(log := tx.events.log - {k});
      n := n - 1;
    }
  }

  method RecordEvent(tx: Tx, action: Action, c: Collection, id: Id, d: Option<Doc>, now: Time) returns (e: Event)
    modifies tx`events
    ensures tx.events == Record(old(tx.events), action, c, id, d, now)
    ensures e == Event(old(tx.events.last) + 1, action, c, id, d)
  {
    var seqno := NextEventSequence(tx);
    e := Event(seqno, action, c, id, d);
    tx.events := tx.events.(log := tx.events.log[seqno := e], history := tx.events.history + [e]);
    TrimEventLog(tx);
    tx.events := tx.events.(outbox := tx.events.outbox[seqno := Delivery(e, Pending, 0, 0, now)]);
  }
}
