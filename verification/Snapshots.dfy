/** Listing and searching while the engine runs: a reader sees one state of a run, and every state of
    every run is one the read paths are right on. */
module Snapshots {
  import opened ByteOrder
  import opened Documents
  import opened Keys
  import opened Storage
  import opened SecondaryIndex
  import opened FullText
  import opened Writes
  import opened Invariants
  import opened Bolt
  import opened TextSearch
  import opened Query
  import opened Sorting
  import opened QueryPaths
  import opened Engine
  import opened Runs

  /** The database is one that a reader beside the writers, builders, backfills, purges and webhook
      workers may see. */
  ghost predicate IsSnapshot(r: Rules, db: Db) {
    exists pairs, states, steps, i: nat :: SeenAt(r, pairs, states, steps, i, db)
  }

  ghost predicate SeenAt(r: Rules, pairs: set<Pair>, states: seq<System>, steps: seq<Step>, i: nat, db: Db) {
    InjectiveNames(pairs) && IsRun(r, pairs, states, steps) && i < |states| && db == states[i].db
  }

  /** Every snapshot has what the read paths rely on: exact listed indexes, text tables in step with
      the documents, and the number of documents as the stored count. */
  lemma EverySnapshotIsConsistent(r: Rules, db: Db)
    requires IsSnapshot(r, db)
    ensures ReadyExact(db.docs, db.indexes) && TextInv(r, db.docs, db.fts)
    ensures forall c | c in db.docs :: EffectiveCount(db, c) == |db.docs[c]|
  {
    var pairs, states, steps, i: nat :| SeenAt(r, pairs, states, steps, i, db);
    RunKeepsInv(r, pairs, states, steps, i);
    forall c | c in db.docs ensures EffectiveCount(db, c) == |db.docs[c]| { CountIsExact(r, db, c); }
  }

  /** The collection, every filtered field and the field to sort by have names that may exist. */
  predicate NamesAreValid(c: Collection, request: Request) {
    && ValidCollection(c) && (forall f | f in request.filter :: ValidField(f))
    && match request.order
       case Some(o) => ValidField(o.field)
       case None => true
  }

  /** A listing during a run, whichever index it goes through: the requested page of a list that holds
      exactly the documents of that moment that pass the filter, each once, in id order or sorted the
      way that was asked for; and the number of them. Without a limit a page has 100. */
  method ListInARun(ghost r: Rules, db: Db, c: Collection, request: Request, lim: Limits) returns (reply: Reply, ghost all: seq<Found>)
    requires IsSnapshot(r, db)
    ensures reply == Refused(InvalidName) <==> !NamesAreValid(c, request)
    ensures reply == Refused(NotFound) <==> NamesAreValid(c, request) && c !in db.docs
    ensures NamesAreValid(c, request) && c in db.docs && reply.Refused? ==>
              reply.error == QueryLimit && !ScanFits(lim, db.docs[c], Normalize(request))
    ensures reply.Ok? ==>
              && c in db.docs
              && (forall x: Found :: x in all <==> x.id in db.docs[c] && x.doc == db.docs[c][x.id] && Passes(x.doc, request.filter))
              && DistinctIds(all) && InOrder(all, request.order)
              && IsPage(reply.answer.documents, all, request.offset, if request.limit == 0 then 100 else request.limit)
              && reply.answer.total == if request.filter == map[] then |db.docs[c]| else |all|
  {
    EverySnapshotIsConsistent(r, db);
    all := [];
    reply := ListDocuments(db, c, request, lim);
    if reply.Ok? { all := CorrectMeans(db.docs[c], |db.docs[c]|, Normalize(request), reply.answer); }
  }

  lemma StoredPostingsRepresent(postings: map<TextKey, PostingList>, t: Fts)
    requires t.forward == Flatten(postings)
    ensures Represents(postings, t)
  {
    forall p | p in t.forward
      ensures TextKey(p.collection, p.token) in postings && p.id in Members(postings[TextKey(p.collection, p.token)])
    {
      var k, id :| k in postings && id in Members(postings[k]) && Posting(k.collection, k.token, id) == p;
      assert k == TextKey(p.collection, p.token);
    }
  }

  /** A search during a run over the stored postings: the hits are exactly the documents of that moment
      that are indexed, have every query token and pass the filter. As far as the postings read stand
      in key order, the answer is the requested page of the hits, each once, in id order or sorted the
      way that was asked for. */
  method SearchInARun(r: Rules, db: Db, c: Collection, request: Request, query: string, lim: Limits, postings: map<TextKey, PostingList>)
    returns (reply: Reply, ghost hits: seq<Id>, ghost all: seq<Found>)
    requires IsSnapshot(r, db) && db.fts.forward == Flatten(postings)
    ensures reply == Refused(InvalidName) <==> !NamesAreValid(c, request)
    ensures reply == Refused(NotFound) <==> NamesAreValid(c, request) && c !in db.docs
    ensures reply.Ok? ==>
              && (forall id :: id in hits <==> SearchHit(r, db, c, id, r.queryTokens(query)) && Passes(db.docs[c][id], request.filter))
              && (request.filter != map[] ==> reply.answer.total == |hits|)
    ensures reply.Ok? && AllAscending(postings, c, Ascending(r.queryTokens(query))) ==>
              && |all| == |hits| && (forall x: Found :: x in all <==> x.id in hits && x.id in db.docs[c] && x.doc == db.docs[c][x.id])
              && DistinctIds(all) && InOrder(all, request.order)
              && IsPage(reply.answer.documents, all, request.offset, if request.limit == 0 then 100 else request.limit)
  {
    EverySnapshotIsConsistent(r, db);
    StoredPostingsRepresent(postings, db.fts);
    ghost var found;
    reply, found, hits := SearchDocuments(r, db, c, request, query, lim, postings);
    all := [];
    if reply.Ok? && Increasing(hits) {
      FetchMembers(db.docs[c], hits);
      FetchIsDistinct(db.docs[c], hits);
      all := PageMeans(db.docs[c], hits, Normalize(request), Fetch(db.docs[c], hits));
    }
  }
}
