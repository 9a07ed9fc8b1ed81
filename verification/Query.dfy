/** `ListDocumentsDetailed`: four query paths over one snapshot, and the single specification
    they all meet. */
module Query {
  import opened ByteOrder
  import opened Documents
  import opened Keys
  import opened Storage
  import opened SecondaryIndex
  import opened Sorting

  type Filter = map<Field, Value>

  /** A value filter that may be empty, an order that may be absent, and a page. */
  datatype Request = Request(filter: Filter, order: Option<Order>, limit: nat, offset: nat)

  /** Budgets (zero: unlimited), and the sizes of a document as stored and as returned. */
  datatype Limits = Limits(maxDocs: nat, maxBytes: nat, maxResponse: nat, stored: Doc -> nat, plain: Doc -> nat)

  datatype Answer = Answer(documents: seq<Found>, total: int)

  predicate MatchesField(d: Doc, f: Field, v: Value) {
    f in d && EncodeIndexValue(d[f]) == EncodeIndexValue(v)
  }

  predicate MatchesAll(d: Doc, filter: Filter) {
    forall f | f in filter :: MatchesField(d, f, filter[f])
  }

  /** The loop over the filter's entries, in whatever order the map yields them. */
  method EvaluateFilter(d: Doc, filter: Filter) returns (matches: bool)
    ensures matches <==> MatchesAll(d, filter)
  {
    var rest := filter.Keys;
    while rest != {}
      invariant rest <= filter.Keys
      invariant forall f | f in filter && f !in rest :: MatchesField(d, f, filter[f])
      decreases |rest|
    {
      var f :| f in rest;
      if !MatchesField(d, f, filter[f]) { return false; }
      rest := rest - {f};
    }
    return true;
  }

  // ---------------------------------------------------------------- specification

  /** The ids, in the given order, whose documents match. */
  function Select(docs: map<Id, Doc>, ids: seq<Id>, filter: Filter): seq<Id> {
    if ids == [] then []
    else
      var last := ids[|ids| - 1];
      Select(docs, ids[..|ids| - 1], filter) + if last in docs && MatchesAll(docs[last], filter) then [last] else []
  }

  function Fetch(docs: map<Id, Doc>, ids: seq<Id>): (found: seq<Found>)
    requires forall id | id in ids :: id in docs
    ensures |found| == |ids|
  {
    seq(|ids|, i requires 0 <= i < |ids| => assert ids[i] in ids; Found(ids[i], docs[ids[i]]))
  }

  lemma {:induction false} SelectMembers(docs: map<Id, Doc>, ids: seq<Id>, filter: Filter)
    ensures forall id :: id in Select(docs, ids, filter) <==> id in ids && id in docs && MatchesAll(docs[id], filter)
    ensures Increasing(ids) ==> Increasing(Select(docs, ids, filter))
    ensures |Select(docs, ids, filter)| <= |ids|
  {
    if ids != [] {
      var front, last := ids[..|ids| - 1], ids[|ids| - 1];
      assert ids == front + [last];
      SelectMembers(docs, front, filter);
      assert Increasing(ids) ==> forall x | x in front :: Lt(x, last);
    }
  }

  /** All matching documents, in id order. */
  function Matching(docs: map<Id, Doc>, filter: Filter): seq<Id> {
    Select(docs, Ascending(docs.Keys), filter)
  }

  /** The page of a request over the matching ids. */
  function PageOf(docs: map<Id, Doc>, matching: seq<Id>, q: Request): seq<Found>
    requires forall id | id in matching :: id in docs
  {
    match q.order
    case None => Fetch(docs, Slice(matching, q.offset, q.limit))
    case Some(o) => Slice(Sort(o, Fetch(docs, matching)), q.offset, q.limit)
  }

  /** What a listing without search means: the matches in id order or sorted, one page of them,
      and how many there are. */
  ghost predicate Correct(docs: map<Id, Doc>, count: int, q: Request, a: Answer) {
    var m := Matching(docs, q.filter);
    && (forall id | id in m :: id in docs)
    && a.documents == PageOf(docs, m, q)
    && a.total == if q.filter == map[] then count else |m|
  }

  // ---------------------------------------------------------------- what an answer holds

  /** The document has every filtered field, with a value of the same index key. */
  predicate Passes(d: Doc, filter: Filter) {
    forall f | f in filter :: f in d && EncodeIndexValue(d[f]) == EncodeIndexValue(filter[f])
  }

  /** One page of a list: as many as there are from the offset on, at most `limit`. */
  predicate IsPage(page: seq<Found>, all: seq<Found>, offset: nat, limit: nat) {
    && |page| == (if offset >= |all| then 0 else if |all| - offset < limit then |all| - offset else limit)
    && forall k | 0 <= k < |page| :: page[k] == all[offset + k]
  }

  ghost predicate InOrder(all: seq<Found>, order: Option<Order>) {
    forall i, j | 0 <= i < j < |all| ::
      match order
      case None => Lt(all[i].id, all[j].id)
      case Some(o) => Stands(o, all[i], all[j])
  }

  lemma FetchIsDistinct(docs: map<Id, Doc>, ids: seq<Id>)
    requires Increasing(ids) && forall id | id in ids :: id in docs
    ensures DistinctIds(Fetch(docs, ids)) && InOrder(Fetch(docs, ids), None)
  {
    forall i, j | 0 <= i < j < |ids| ensures ids[i] != ids[j] { LtIrreflexive(ids[i]); }
  }

  lemma FetchMembers(docs: map<Id, Doc>, ids: seq<Id>)
    requires forall id | id in ids :: id in docs
    ensures forall x: Found :: x in Fetch(docs, ids) <==> x.id in ids && x.id in docs && x.doc == docs[x.id]
  {
    forall x: Found | x.id in ids && x.doc == docs[x.id] ensures x in Fetch(docs, ids) {
      var i :| 0 <= i < |ids| && ids[i] == x.id;
      assert Fetch(docs, ids)[i] == x;
    }
  }

  /** A correct answer is one page of a list that holds exactly the documents that pass the filter,
      each once, in id order or in the requested one; and its total is how many there are. */
  lemma CorrectMeans(docs: map<Id, Doc>, count: int, q: Request, a: Answer) returns (all: seq<Found>)
    requires Correct(docs, count, q, a)
    ensures forall x: Found :: x in all <==> x.id in docs && x.doc == docs[x.id] && Passes(x.doc, q.filter)
    ensures DistinctIds(all) && InOrder(all, q.order)
    ensures IsPage(a.documents, all, q.offset, q.limit)
    ensures a.total == if q.filter == map[] then count else |all|
  {
    var matches := MatchesFetched(docs, q.filter);
    all := PageMeans(docs, Matching(docs, q.filter), q, matches);
  }

  /** The page of a request over matches that stand in id order. */
  lemma PageMeans(docs: map<Id, Doc>, m: seq<Id>, q: Request, matches: seq<Found>) returns (all: seq<Found>)
    requires (forall id | id in m :: id in docs) && matches == Fetch(docs, m)
    requires DistinctIds(matches) && InOrder(matches, None)
    ensures |all| == |matches| && forall x: Found :: x in all <==> x in matches
    ensures DistinctIds(all) && InOrder(all, q.order)
    ensures IsPage(PageOf(docs, m, q), all, q.offset, q.limit)
  {
    match q.order
    case None =>
      all := matches;
      FetchedSlice(docs, m, q.offset, q.limit);
    case Some(o) =>
      SortedIsDistinct(o, matches);
      all := Sort(o, matches);
      SliceIsPage(all, q.offset, q.limit);
  }

  lemma SliceIsPage(all: seq<Found>, offset: nat, limit: nat)
    ensures IsPage(Slice(all, offset, limit), all, offset, limit)
  {
  }

  lemma FetchedSlice(docs: map<Id, Doc>, m: seq<Id>, offset: nat, limit: nat)
    requires forall id | id in m :: id in docs
    ensures forall id | id in Slice(m, offset, limit) :: id in docs
    ensures IsPage(Fetch(docs, Slice(m, offset, limit)), Fetch(docs, m), offset, limit)
  {
    forall id | id in Slice(m, offset, limit) ensures id in docs { assert id in m; }
  }

  lemma MatchesFetched(docs: map<Id, Doc>, filter: Filter) returns (all: seq<Found>)
    requires forall id | id in Matching(docs, filter) :: id in docs
    ensures all == Fetch(docs, Matching(docs, filter))
    ensures forall x: Found :: x in all <==> x.id in docs && x.doc == docs[x.id] && Passes(x.doc, filter)
    ensures DistinctIds(all) && InOrder(all, None)
  {
    var m := Matching(docs, filter);
    all := Fetch(docs, m);
    SelectMembers(docs, Ascending(docs.Keys), filter);
    FetchMembers(docs, m);
    FetchIsDistinct(docs, m);
    forall x: Found ensures x in all <==> x.id in docs && x.doc == docs[x.id] && Passes(x.doc, filter) {
      assert x.id in m <==> x.id in docs && MatchesAll(docs[x.id], filter);
    }
  }

  lemma SortedIsDistinct(o: Order, s: seq<Found>)
    requires DistinctIds(s)
    ensures DistinctIds(Sort(o, s)) && InOrder(Sort(o, s), Some(o)) && |Sort(o, s)| == |s|
    ensures forall x :: x in Sort(o, s) <==> x in s
  {
    var t := Sort(o, s);
    SortIsSortedPermutation(o, s);
    forall x ensures x in t <==> x in s { assert x in t <==> x in multiset(t); assert x in s <==> x in multiset(s); }
    forall i, j | 0 <= i < j < |t| ensures t[i].id != t[j].id && Stands(o, t[i], t[j]) {
      SortRunsTheRightWay(o, s, i, j);
      BeforeIsStrictTotalOrder(o, t[i], t[j], t[i]);
      assert t[i] in s && t[j] in s;
    }
  }

  // ---------------------------------------------------------------- budgets

  function StoredBytes(lim: Limits, docs: map<Id, Doc>, ids: seq<Id>): nat {
    if ids == [] then 0
    else
      var last := ids[|ids| - 1];
      StoredBytes(lim, docs, ids[..|ids| - 1]) + if last in docs then lim.stored(docs[last]) else 0
  }

  function ReturnedBytes(lim: Limits, docs: map<Id, Doc>, ids: seq<Id>): nat {
    if ids == [] then 0
    else
      var last := ids[|ids| - 1];
      ReturnedBytes(lim, docs, ids[..|ids| - 1]) + if last in docs then |last| + lim.plain(docs[last]) + 96 else 0
  }

  /** Scanning the first list and returning the second stays within every budget. */
  ghost predicate Fits(lim: Limits, docs: map<Id, Doc>, scanned: seq<Id>, returned: seq<Id>) {
    && (lim.maxDocs > 0 ==> |scanned| <= lim.maxDocs)
    && (lim.maxBytes > 0 ==> StoredBytes(lim, docs, scanned) <= lim.maxBytes)
    && (lim.maxResponse > 0 ==> ReturnedBytes(lim, docs, returned) <= lim.maxResponse)
  }

  /** `queryBudget`: counters that only grow, checked at every document. */
  class QueryBudget {
    const lim: Limits
    var scannedDocuments: nat
    var scannedBytes: nat
    var returnedBytes: nat

    constructor (lim: Limits)
      ensures this.lim == lim && scannedDocuments == 0 && scannedBytes == 0 && returnedBytes == 0
    {
      this.lim := lim;
      scannedDocuments, scannedBytes, returnedBytes := 0, 0, 0;
    }

    method Scan(d: Doc) returns (ok: bool)
      modifies this
      ensures scannedDocuments == old(scannedDocuments) + 1
      ensures scannedBytes == old(scannedBytes) + lim.stored(d) && returnedBytes == old(returnedBytes)
      ensures ok <==> (lim.maxDocs > 0 ==> scannedDocuments <= lim.maxDocs) && (lim.maxBytes > 0 ==> scannedBytes <= lim.maxBytes)
    {
      scannedDocuments := scannedDocuments + 1;
      scannedBytes := scannedBytes + lim.stored(d);
      if lim.maxDocs > 0 && scannedDocuments > lim.maxDocs { return false; }
      if lim.maxBytes > 0 && scannedBytes > lim.maxBytes { return false; }
      return true;
    }

    method ReturnDocument(id: Id, d: Doc) returns (ok: bool)
      modifies this
      ensures returnedBytes == old(returnedBytes) + |id| + lim.plain(d) + 96
      ensures scannedDocuments == old(scannedDocuments) && scannedBytes == old(scannedBytes)
      ensures ok <==> (lim.maxResponse > 0 ==> returnedBytes <= lim.maxResponse)
    {
      returnedBytes := returnedBytes + |id| + lim.plain(d) + 96;
      if lim.maxResponse > 0 && returnedBytes > lim.maxResponse { return false; }
      return true;
    }

    /** The counters say what was scanned and returned so far, all of it within budget. */
    ghost predicate Spent(docs: map<Id, Doc>, scanned: seq<Id>, returned: seq<Id>)
      reads this
    {
      && scannedDocuments == |scanned|
      && scannedBytes == StoredBytes(lim, docs, scanned)
      && returnedBytes == ReturnedBytes(lim, docs, returned)
      && Fits(lim, docs, scanned, returned)
    }
  }

  lemma {:induction false} BytesGrow(lim: Limits, docs: map<Id, Doc>, ids: seq<Id>, i: nat)
    requires i <= |ids|
    ensures StoredBytes(lim, docs, ids[..i]) <= StoredBytes(lim, docs, ids)
    ensures ReturnedBytes(lim, docs, ids[..i]) <= ReturnedBytes(lim, docs, ids)
    decreases |ids|
  {
    if i < |ids| {
      BytesGrow(lim, docs, ids[..|ids| - 1], i);
      assert ids[..|ids| - 1][..i] == ids[..i];
    } else {
      assert ids[..i] == ids;
    }
  }
}
