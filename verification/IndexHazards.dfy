/** What goes wrong without the two hypotheses of the index theorems: bucket names that collide,
    and two builds of one pair overlapping. Each is an exact condition, for every database. */
module IndexHazards {
  import opened ByteOrder
  import opened Documents
  import opened Keys
  import opened Storage
  import opened SecondaryIndex
  import opened Maintenance
  import Writes

  /** The listed index on `p` has a bucket, and it holds exactly what it should. */
  ghost predicate Exact(db: Db, p: Pair) {
    Name(p) in db.indexes.buckets && db.indexes.buckets[Name(p)] == Indexed(DocsOf(db.docs, p.collection), p.field)
  }

  lemma NothingIndexed(docs: map<Id, Doc>, f: Field)
    ensures Indexed(docs, f) == {} <==> forall id | id in docs :: f !in docs[id]
  {
    if id :| id in docs && f in docs[id] {
      assert Entry(EncodeIndexValue(docs[id][f]), id) in Indexed(docs, f);
    }
  }

  // ---------------------------------------------------------------- colliding names

  /** Underscores make distinct pairs share a bucket: `a` with `b_c`, and `a_b` with `c`. */
  lemma NamesCollide(c: string, d: string, f: string)
    ensures Name(Pair(c, d + "_" + f)) == Name(Pair(c + "_" + d, f))
    ensures Pair(c, d + "_" + f) != Pair(c + "_" + d, f)
  {
    IndexBucketNameCollision(c, d + "_" + f, c + "_" + d, f);
    assert (c + "_" + d)[|c| + 1..] == d;
    assert d + "_" + f == (c + "_" + d)[|c| + 1..] + "_" + f;
    assert c + "_" <= c + "_" + d;
  }

  /** Ordinary names do it. */
  lemma ValidNamesCollide()
    ensures ValidCollection("a") && ValidField("b_c") && ValidCollection("a_b") && ValidField("c")
    ensures Name(Pair("a", "b_c")) == Name(Pair("a_b", "c"))
  {
    NamesCollide("a", "b", "c");
    assert "b" + "_" + "c" == "b_c" && "a" + "_" + "b" == "a_b";
    assert !HasDotDot("a") && !HasDotDot("a_b");
  }

  /** Starting a build empties the bucket of any other index of the same name: that index stays
      right exactly when no document of its collection has its field. */
  lemma CollidingBuildEmptiesTheOther(db: Db, p: Pair, q: Pair)
    requires p != q && Name(p) == Name(q) && Exact(db, q)
    requires StartIndexBuild(db, p).Done?
    ensures Exact(StartIndexBuild(db, p).db, q) <==> forall id | id in DocsOf(db.docs, q.collection) :: q.field !in db.docs[q.collection][id]
  {
    NothingIndexed(DocsOf(db.docs, q.collection), q.field);
  }

  // ---------------------------------------------------------------- overlapping builds

  /** A first build starts and applies its batch, the index is deleted, a second build starts, and
      the first one finishes: the marker it finds is the second's. */
  lemma OvertakenBuildListsAnEmptyIndex(db: Db, p: Pair, batch: seq<IndexEntry>) returns (last: Db)
    requires p.collection in db.docs && !InUse(db.indexes, p)
    ensures
      var first := StartIndexBuild(db, p);
      first.Done?
      && var applied := ApplyIndexBatch(first.db, p, batch);
      applied.Done?
      && var deleted := DeleteIndex(applied.db, p);
      deleted.Done?
      && var second := StartIndexBuild(deleted.db, p);
      second.Done?
      && FinishIndexBuild(second.db, p) == Writes.Done(last, None)
    ensures IsReady(last.indexes, p) && p !in last.indexes.building
    ensures Exact(last, p) <==> forall id | id in db.docs[p.collection] :: p.field !in db.docs[p.collection][id]
  {
    NothingIndexed(db.docs[p.collection], p.field);
    var deleted := DeleteIndex(ApplyIndexBatch(StartIndexBuild(db, p).db, p, batch).db, p).db;
    last := FinishIndexBuild(StartIndexBuild(deleted, p).db, p).db;
  }

  /** The deferred cleanup of a failing build never looks at what it removes: it does no harm
      exactly when the pair is not listed as ready. */
  lemma AbortIsSafeIffNotListed(db: Db, p: Pair)
    requires IndexInv(db.docs, db.indexes)
    requires forall q | InUse(db.indexes, q) && Name(q) == Name(p) :: q == p
    ensures IndexInv(db.docs, AbortIndexBuild(db, p).indexes) <==> !IsReady(db.indexes, p)
  {
    if IsReady(db.indexes, p) {
      assert IsReady(AbortIndexBuild(db, p).indexes, p);
    } else {
      DropKeepsInv(db.docs, db.indexes, DropBuild(db.indexes, p), p);
    }
  }

  /** A first build starts, the index is deleted, a second build runs to its end, and the first
      notices and cleans up: the finished index is left listed without a bucket. */
  lemma LateAbortRemovesAFinishedIndex(db: Db, p: Pair, batch: seq<IndexEntry>) returns (last: Db)
    requires p.collection in db.docs && !InUse(db.indexes, p)
    ensures
      var first := StartIndexBuild(db, p);
      first.Done?
      && var deleted := DeleteIndex(first.db, p);
      deleted.Done?
      && var second := StartIndexBuild(deleted.db, p);
      second.Done?
      && var applied := ApplyIndexBatch(second.db, p, batch);
      applied.Done?
      && var finished := FinishIndexBuild(applied.db, p);
      finished.Done? && last == AbortIndexBuild(finished.db, p)
    ensures IsReady(last.indexes, p) && Name(p) !in last.indexes.buckets
  {
    var deleted := DeleteIndex(StartIndexBuild(db, p).db, p).db;
    var applied := ApplyIndexBatch(StartIndexBuild(deleted, p).db, p, batch).db;
    last := AbortIndexBuild(FinishIndexBuild(applied, p).db, p);
  }
}
