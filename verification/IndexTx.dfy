/** Secondary-index maintenance inside an update transaction. */
module IndexTx {
  import opened ByteOrder
  import opened Documents
  import opened Keys
  import opened Storage
  import opened SecondaryIndex
  import opened Maintenance
  import opened Writes
  import opened Bolt

  lemma PairsAdd(b: ValueBuckets, v: string, id: Id)
    ensures Pairs(b[v := (if v in b then b[v] else {}) + {id}]) == Pairs(b) + {Entry(v, id)}
  {
    var b' := b[v := (if v in b then b[v] else {}) + {id}];
    forall e: Entry ensures e in Pairs(b') <==> e in Pairs(b) + {Entry(v, id)} {
      assert e == Entry(e.value, e.id);
    }
  }

  function Dropped(b: ValueBuckets, v: string, id: Id): ValueBuckets {
    if v !in b then b
    else if b[v] - {id} == {} then b - {v}
    else b[v := b[v] - {id}]
  }

  lemma PairsDrop(b: ValueBuckets, v: string, id: Id)
    ensures Pairs(Dropped(b, v, id)) == Pairs(b) - {Entry(v, id)}
  {
    var b' := Dropped(b, v, id);
    forall e: Entry ensures e in Pairs(b') <==> e in Pairs(b) - {Entry(v, id)} {
      assert e == Entry(e.value, e.id);
      assert e in Pairs(b') <==> e.value in b' && e.id in b'[e.value];
      assert e in Pairs(b) <==> e.value in b && e.id in b[e.value];
    }
  }

  /** `getWritableIndexFieldsTx`: ready fields, then building ones, without repetition. */
  method GetWritableIndexFields(tx: Tx, c: Collection) returns (fields: seq<Field>)
    ensures Elements(fields) == WritableFields(tx.IndexTables(), c)
    ensures forall i, j | 0 <= i < j < |fields| :: fields[i] != fields[j]
  {
    var ready := if c in tx.ready then tx.ready[c] else [];
    fields := Merge([], ready);
    var building := GetBuildingFields(tx, c);
    fields := Merge(fields, building);
  }

  /** `getBuildingIndexFieldsTx`: the marker keys under the collection's prefix, in key order. */
  method GetBuildingFields(tx: Tx, c: Collection) returns (fields: seq<Field>)
    ensures forall f :: f in Elements(fields) <==> Pair(c, f) in tx.building
  {
    var found := set p | p in tx.building && p.collection == c :: p.field;
    fields := Ascending(found);
    forall f ensures f in found <==> Pair(c, f) in tx.building {
      if Pair(c, f) in tx.building { assert Pair(c, f).field == f; }
    }
  }

  /** One of the two merging loops: append what was not seen yet. */
  method Merge(seen: seq<Field>, more: seq<Field>) returns (merged: seq<Field>)
    requires forall i, j | 0 <= i < j < |seen| :: seen[i] != seen[j]
    ensures Elements(merged) == Elements(seen) + Elements(more)
    ensures forall i, j | 0 <= i < j < |merged| :: merged[i] != merged[j]
  {
    merged := seen;
    for i := 0 to |more|
      invariant Elements(merged) == Elements(seen) + Elements(more[..i])
      invariant forall i, j | 0 <= i < j < |merged| :: merged[i] != merged[j]
    {
      ElementsAppend(more, i);
      if more[i] !in merged {
        merged := merged + [more[i]];
        ElementsAppend(merged, |merged| - 1);
      }
    }
    assert more[..|more|] == more;
  }

  lemma EntriesGrow(c: Collection, fields: seq<Field>, i: nat, id: Id, d: Doc, n: string)
    requires i < |fields|
    ensures Entries(c, Elements(fields[..i + 1]), id, d, n) ==
            Entries(c, Elements(fields[..i]), id, d, n)
            + if fields[i] in d && Name(Pair(c, fields[i])) == n then {Entry(EncodeIndexValue(d[fields[i]]), id)} else {}
  {
    assert fields[..i + 1] == fields[..i] + [fields[i]];
  }

  method PutEntry(tx: Tx, name: string, v: string, id: Id)
    requires name in tx.buckets
    modifies tx`buckets
    ensures tx.buckets.Keys == old(tx.buckets.Keys)
    ensures forall n | n in tx.buckets && n != name :: tx.buckets[n] == old(tx.buckets[n])
    ensures Pairs(tx.buckets[name]) == old(Pairs(tx.buckets[name])) + {Entry(v, id)}
    ensures old(NoEmptyValues(tx.buckets)) ==> NoEmptyValues(tx.buckets)
  {
    var bucket := tx.buckets[name];
    PairsAdd(bucket, v, id);
    tx.buckets := tx.buckets[name := bucket[v := (if v in bucket then bucket[v] else {}) + {id}]];
  }

  /** A value bucket that loses its last id is removed. */
  method DropEntry(tx: Tx, name: string, v: string, id: Id)
    requires name in tx.buckets
    modifies tx`buckets
    ensures tx.buckets.Keys == old(tx.buckets.Keys)
    ensures forall n | n in tx.buckets && n != name :: tx.buckets[n] == old(tx.buckets[n])
    ensures Pairs(tx.buckets[name]) == old(Pairs(tx.buckets[name])) - {Entry(v, id)}
    ensures old(NoEmptyValues(tx.buckets)) ==> NoEmptyValues(tx.buckets)
  {
    var bucket := tx.buckets[name];
    PairsDrop(bucket, v, id);
    if v in bucket {
      var left := bucket[v] - {id};
      tx.buckets := tx.buckets[name := if left == {} then bucket - {v} else bucket[v := left]];
    }
  }

  /** Each bucket holds what it held plus the document's entries for the given fields. */
  ghost predicate Grown(was: map<string, ValueBuckets>, now: map<string, ValueBuckets>, c: Collection, fields: set<Field>, id: Id, d: Doc) {
    && now.Keys == was.Keys
    && (forall n | n in was :: Pairs(now[n]) == Pairs(was[n]) + Entries(c, fields, id, d, n))
  }

  ghost predicate Shrunk(was: map<string, ValueBuckets>, now: map<string, ValueBuckets>, c: Collection, fields: set<Field>, id: Id, d: Doc) {
    && now.Keys == was.Keys
    && (forall n | n in was :: Pairs(now[n]) == Pairs(was[n]) - Entries(c, fields, id, d, n))
  }

  /** Only the named bucket differs. */
  ghost predicate SameBut(mid: map<string, ValueBuckets>, now: map<string, ValueBuckets>, name: string) {
    now.Keys == mid.Keys && forall n | n in mid && n != name :: now[n] == mid[n]
  }

  lemma GrownAll(ready: map<Collection, seq<Field>>, building: set<Pair>, was: map<string, ValueBuckets>, now: map<string, ValueBuckets>,
                 c: Collection, id: Id, d: Doc)
    requires Grown(was, now, c, WritableFields(Indexes(ready, building, Abstract(was)), c), id, d)
    ensures Indexes(ready, building, Abstract(now)) == IndexDoc(Indexes(ready, building, Abstract(was)), c, id, d)
  {
  }

  lemma ShrunkAll(ready: map<Collection, seq<Field>>, building: set<Pair>, was: map<string, ValueBuckets>, now: map<string, ValueBuckets>,
                  c: Collection, id: Id, d: Doc)
    requires Shrunk(was, now, c, WritableFields(Indexes(ready, building, Abstract(was)), c), id, d)
    ensures Indexes(ready, building, Abstract(now)) == UnindexDoc(Indexes(ready, building, Abstract(was)), c, id, d)
  {
  }

  lemma NothingYet(was: map<string, ValueBuckets>, c: Collection, id: Id, d: Doc)
    ensures Grown(was, was, c, {}, id, d) && Shrunk(was, was, c, {}, id, d)
  {
  }

  lemma GrowStep(was: map<string, ValueBuckets>, mid: map<string, ValueBuckets>, now: map<string, ValueBuckets>,
                 c: Collection, fields: seq<Field>, i: nat, id: Id, d: Doc)
    requires i < |fields| && Grown(was, mid, c, Elements(fields[..i]), id, d)
    requires SameBut(mid, now, Name(Pair(c, fields[i])))
    requires Name(Pair(c, fields[i])) in mid ==>
               Pairs(now[Name(Pair(c, fields[i]))]) == Pairs(mid[Name(Pair(c, fields[i]))]) + EntryOf(fields[i], id, d)
    ensures Grown(was, now, c, Elements(fields[..i + 1]), id, d)
  {
    forall n | n in was ensures Pairs(now[n]) == Pairs(was[n]) + Entries(c, Elements(fields[..i + 1]), id, d, n) {
      EntriesGrow(c, fields, i, id, d, n);
    }
  }

  lemma ShrinkStep(was: map<string, ValueBuckets>, mid: map<string, ValueBuckets>, now: map<string, ValueBuckets>,
                   c: Collection, fields: seq<Field>, i: nat, id: Id, d: Doc)
    requires i < |fields| && Shrunk(was, mid, c, Elements(fields[..i]), id, d)
    requires SameBut(mid, now, Name(Pair(c, fields[i])))
    requires Name(Pair(c, fields[i])) in mid ==>
               Pairs(now[Name(Pair(c, fields[i]))]) == Pairs(mid[Name(Pair(c, fields[i]))]) - EntryOf(fields[i], id, d)
    ensures Shrunk(was, now, c, Elements(fields[..i + 1]), id, d)
  {
    forall n | n in was ensures Pairs(now[n]) == Pairs(was[n]) - Entries(c, Elements(fields[..i + 1]), id, d, n) {
      EntriesGrow(c, fields, i, id, d, n);
    }
  }

  /** The B-tree half of `indexDocumentTx`. */
  method IndexDocument(tx: Tx, c: Collection, id: Id, d: Doc)
    modifies tx`buckets
    ensures tx.IndexTables() == IndexDoc(old(tx.IndexTables()), c, id, d)
    ensures old(NoEmptyValues(tx.buckets)) ==> NoEmptyValues(tx.buckets)
  {
    var fields := GetWritableIndexFields(tx, c);
    ghost var was := tx.buckets;
    NothingYet(was, c, id, d);
    for i := 0 to |fields|
      invariant Grown(was, tx.buckets, c, Elements(fields[..i]), id, d)
      invariant NoEmptyValues(was) ==> NoEmptyValues(tx.buckets)
    {
      var f := fields[i];
      var name := Name(Pair(c, f));
      ghost var mid := tx.buckets;
      if f in d && name in tx.buckets {
        PutEntry(tx, name, EncodeIndexValue(d[f]), id);
      }
      GrowStep(was, mid, tx.buckets, c, fields, i, id, d);
    }
    ElementsWhole(fields);
    GrownAll(tx.ready, tx.building, was, tx.buckets, c, id, d);
  }

  /** The B-tree half of `unindexDocumentTx`. */
  method UnindexDocument(tx: Tx, c: Collection, id: Id, d: Doc)
    modifies tx`buckets
    ensures tx.IndexTables() == UnindexDoc(old(tx.IndexTables()), c, id, d)
    ensures old(NoEmptyValues(tx.buckets)) ==> NoEmptyValues(tx.buckets)
  {
    var fields := GetWritableIndexFields(tx, c);
    ghost var was := tx.buckets;
    NothingYet(was, c, id, d);
    for i := 0 to |fields|
      invariant Shrunk(was, tx.buckets, c, Elements(fields[..i]), id, d)
      invariant NoEmptyValues(was) ==> NoEmptyValues(tx.buckets)
    {
      var f := fields[i];
      var name := Name(Pair(c, f));
      ghost var mid := tx.buckets;
      if f in d && name in tx.buckets {
        DropEntry(tx, name, EncodeIndexValue(d[f]), id);
      }
      ShrinkStep(was, mid, tx.buckets, c, fields, i, id, d);
    }
    ElementsWhole(fields);
    ShrunkAll(tx.ready, tx.building, was, tx.buckets, c, id, d);
  }

  // ---------------------------------------------------------------- builds

  method StartIndexBuildTx(tx: Tx, p: Pair) returns (error: Option<Error>)
    modifies tx`buckets, tx`building
    ensures error.None? <==> StartIndexBuild(old(tx.View()), p).Done?
    ensures tx.View() == After(old(tx.View()), StartIndexBuild(old(tx.View()), p))
    ensures old(NoEmptyValues(tx.buckets)) ==> NoEmptyValues(tx.buckets)
  {
    if p.collection !in tx.docs { return Some(NotFound); }
    var indexes := if p.collection in tx.ready then tx.ready[p.collection] else [];
    if p.field in indexes { return Some(AlreadyExists); }
    if p in tx.building { return Some(BuildInProgress); }
    tx.buckets := tx.buckets[Name(p) := map[]];
    tx.building := tx.building + {p};
    assert Pairs(map[]) == {};
    assert tx.IndexTables().buckets == StartBuild(old(tx.IndexTables()), p).buckets;
    return None;
  }

  /** One batch of the builder's scan, over the snapshot's keys in byte order. */
  method CollectIndexBatch(docs: map<Id, Doc>, f: Field, after: Option<Id>, limit: nat)
    returns (batch: seq<IndexEntry>, last: Option<Id>, done: bool)
    requires limit > 0
    ensures IndexBatchOf(docs, f, after, last, done, batch)
    ensures !done ==> last.Some? && last.value in docs && !Passed(after, false, last.value)
    ensures |batch| <= limit
  {
    var keys := Ascending(set id | id in docs && !Passed(after, false, id));
    var scanned := 0;
    batch := [];
    last := None;
    while scanned < |keys| && scanned < limit
      invariant scanned <= |keys| && |batch| <= scanned <= limit
      invariant last == if scanned == 0 then None else Some(keys[scanned - 1])
      invariant forall i | 0 <= i < scanned :: keys[i] in docs
      invariant forall i | scanned <= i < |keys| :: !Passed(last, false, keys[i])
      invariant forall i | 0 <= i < scanned && f in docs[keys[i]] ::
                  IndexEntry(keys[i], ComputeETag(docs[keys[i]]), EncodeIndexValue(docs[keys[i]][f])) in batch
      invariant forall e | e in batch :: e.id in docs && e.etag == ComputeETag(docs[e.id])
                                         && EntryOf(f, e.id, docs[e.id]) == {Entry(e.value, e.id)}
    {
      var id := keys[scanned];
      assert id in keys;
      if f in docs[id] {
        batch := batch + [IndexEntry(id, ComputeETag(docs[id]), EncodeIndexValue(docs[id][f]))];
      }
      last := Some(id);
      scanned := scanned + 1;
    }
    done := scanned == |keys|;
    forall id | id in docs && !Passed(after, false, id) && Passed(last, done, id)
      ensures exists i :: 0 <= i < scanned && keys[i] == id
    {
      assert id in keys;
      var i :| 0 <= i < |keys| && keys[i] == id;
    }
    if !done { assert last.value in keys; }
  }

  method ApplyIndexBatchTx(tx: Tx, p: Pair, batch: seq<IndexEntry>) returns (error: Option<Error>)
    modifies tx`buckets
    ensures error.None? <==> ApplyIndexBatch(old(tx.View()), p, batch).Done?
    ensures tx.View() == After(old(tx.View()), ApplyIndexBatch(old(tx.View()), p, batch))
    ensures old(NoEmptyValues(tx.buckets)) ==> NoEmptyValues(tx.buckets)
  {
    if p !in tx.building { return Some(NotBuilding); }
    if p.collection !in tx.docs { return Some(NotFound); }
    var name := Name(p);
    if name !in tx.buckets { return Some(NotBuilding); }
    var docs := tx.docs[p.collection];
    ghost var was := tx.buckets;
    for i := 0 to |batch|
      invariant tx.buckets.Keys == was.Keys
      invariant forall n | n in was && n != name :: tx.buckets[n] == was[n]
      invariant Pairs(tx.buckets[name]) == Pairs(was[name]) + Unchanged(docs, batch[..i])
      invariant NoEmptyValues(was) ==> NoEmptyValues(tx.buckets)
    {
      var e := batch[i];
      assert batch[..i + 1] == batch[..i] + [e];
      if e.id in docs && ComputeETag(docs[e.id]) == e.etag {
        PutEntry(tx, name, e.value, e.id);
      }
    }
    assert batch[..|batch|] == batch;
    assert tx.IndexTables().buckets ==
           old(tx.IndexTables()).buckets[name := old(tx.IndexTables()).buckets[name] + Unchanged(docs, batch)];
    return None;
  }

  method FinishIndexBuildTx(tx: Tx, p: Pair) returns (error: Option<Error>)
    modifies tx`ready, tx`building
    ensures error.None? <==> FinishIndexBuild(old(tx.View()), p).Done?
    ensures tx.View() == After(old(tx.View()), FinishIndexBuild(old(tx.View()), p))
  {
    if p.collection !in tx.docs { return Some(NotFound); }
    if p !in tx.building { return Some(NotBuilding); }
    var indexes := if p.collection in tx.ready then tx.ready[p.collection] else [];
    if p.field !in indexes {
      tx.ready := tx.ready[p.collection := indexes + [p.field]];
    }
    tx.building := tx.building - {p};
    return None;
  }

  method DeleteIndexBucketAndBuild(tx: Tx, p: Pair)
    modifies tx`buckets, tx`building
    ensures tx.IndexTables() == DropBuild(old(tx.IndexTables()), p)
    ensures old(NoEmptyValues(tx.buckets)) ==> NoEmptyValues(tx.buckets)
  {
    tx.buckets := tx.buckets - {Name(p)};
    tx.building := tx.building - {p};
    assert tx.IndexTables().buckets == DropBuild(old(tx.IndexTables()), p).buckets;
  }

  method DeleteIndexTx(tx: Tx, p: Pair) returns (error: Option<Error>)
    modifies tx`buckets, tx`building, tx`ready
    ensures error.None? <==> DeleteIndex(old(tx.View()), p).Done?
    ensures tx.View() == After(old(tx.View()), DeleteIndex(old(tx.View()), p))
    ensures old(NoEmptyValues(tx.buckets)) ==> NoEmptyValues(tx.buckets)
  {
    var indexes := if p.collection in tx.ready then tx.ready[p.collection] else [];
    var found := false;
    var kept := [];
    for i := 0 to |indexes|
      invariant unchanged(tx)
      invariant kept == Without(indexes[..i], p.field) && (found <==> p.field in indexes[..i])
    {
      assert indexes[..i + 1] == indexes[..i] + [indexes[i]];
      WithoutAppend(indexes[..i], indexes[i], p.field);
      if indexes[i] == p.field { found := true; } else { kept := kept + [indexes[i]]; }
    }
    assert indexes[..|indexes|] == indexes;
    if !found {
      if p in tx.building {
        DeleteIndexBucketAndBuild(tx, p);
        return None;
      }
      return Some(NotFound);
    }
    tx.ready := tx.ready[p.collection := kept];
    DeleteIndexBucketAndBuild(tx, p);
    return None;
  }

  lemma {:induction false} WithoutAppend(fields: seq<Field>, g: Field, f: Field)
    ensures Without(fields + [g], f) == Without(fields, f) + (if g == f then [] else [g])
  {
    if fields != [] {
      WithoutAppend(fields[1..], g, f);
      assert (fields + [g])[1..] == fields[1..] + [g];
    }
  }

  /** The index part of `DeleteCollection`. */
  method DeleteIndexesForCollection(tx: Tx, c: Collection)
    modifies tx`buckets, tx`building, tx`ready
    ensures tx.IndexTables() == DropCollection(old(tx.IndexTables()), c)
    ensures old(NoEmptyValues(tx.buckets)) ==> NoEmptyValues(tx.buckets)
  {
    var fields := GetWritableIndexFields(tx, c);
    ghost var was := tx.buckets;
    for i := 0 to |fields|
      invariant tx.ready == old(tx.ready) && tx.building == old(tx.building)
      invariant tx.buckets == was - NamesOf(c, Elements(fields[..i]))
    {
      ElementsAppend(fields, i);
      assert NamesOf(c, Elements(fields[..i + 1])) == NamesOf(c, Elements(fields[..i])) + {Name(Pair(c, fields[i]))};
      tx.buckets := tx.buckets - {Name(Pair(c, fields[i]))};
    }
    ElementsWhole(fields);
    tx.ready := tx.ready - {c};
    tx.building := set p | p in tx.building && p.collection != c;
    assert tx.IndexTables().buckets == DropCollection(old(tx.IndexTables()), c).buckets;
  }
}
