/** The loops of the query paths, each against the specification in module Query. */
module QueryPaths {
  import opened ByteOrder
  import opened Documents
  import opened Keys
  import opened Storage
  import opened SecondaryIndex
  import opened FullText
  import opened Writes
  import opened Sorting
  import opened Query
  import opened Bolt
  import opened TextSearch

  /** The ids a path hands back for its matches: all when they are to be sorted, else the page. */
  function Returned(q: Request, m: seq<Id>): seq<Id> {
    if q.order.Some? then m else Slice(m, q.offset, q.limit)
  }

  // ---------------------------------------------------------------- prefixes

  lemma SliceAppend(m: seq<Id>, x: Id, offset: nat, limit: nat)
    ensures Slice(m + [x], offset, limit) ==
            if |m| >= offset && |Slice(m, offset, limit)| < limit then Slice(m, offset, limit) + [x] else Slice(m, offset, limit)
  {
  }

  lemma ReturnedPrefix(q: Request, m: seq<Id>, m': seq<Id>)
    requires m <= m'
    ensures Returned(q, m) <= Returned(q, m')
  {
  }

  lemma {:induction false} SelectPrefix(docs: map<Id, Doc>, ids: seq<Id>, i: nat, filter: Filter)
    requires i <= |ids|
    ensures Select(docs, ids[..i], filter) <= Select(docs, ids, filter)
    decreases |ids|
  {
    if i < |ids| {
      SelectPrefix(docs, ids[..|ids| - 1], i, filter);
      assert ids[..|ids| - 1][..i] == ids[..i];
    } else {
      assert ids[..i] == ids;
    }
  }

  /** Spending more never brings a query back within budget. */
  lemma FitsPrefix(lim: Limits, docs: map<Id, Doc>, scanned: seq<Id>, returned: seq<Id>, scanned': seq<Id>, returned': seq<Id>)
    requires scanned <= scanned' && returned <= returned' && Fits(lim, docs, scanned', returned')
    ensures Fits(lim, docs, scanned, returned)
  {
    assert scanned'[..|scanned|] == scanned && returned'[..|returned|] == returned;
    BytesGrow(lim, docs, scanned', |scanned|);
    BytesGrow(lim, docs, returned', |returned|);
  }

  lemma StepsFit(lim: Limits, docs: map<Id, Doc>, ids: seq<Id>, i: nat, filter: Filter, q: Request)
    requires i <= |ids|
    requires Fits(lim, docs, Select(docs, ids, map[]), Returned(q, Select(docs, ids, filter)))
    ensures Fits(lim, docs, Select(docs, ids[..i], map[]), Returned(q, Select(docs, ids[..i], filter)))
  {
    SelectPrefix(docs, ids, i, map[]);
    SelectPrefix(docs, ids, i, filter);
    ReturnedPrefix(q, Select(docs, ids[..i], filter), Select(docs, ids, filter));
    FitsPrefix(lim, docs, Select(docs, ids[..i], map[]), Returned(q, Select(docs, ids[..i], filter)),
               Select(docs, ids, map[]), Returned(q, Select(docs, ids, filter)));
  }

  lemma SelectStep(docs: map<Id, Doc>, ids: seq<Id>, i: nat, filter: Filter)
    requires i < |ids|
    ensures Select(docs, ids[..i + 1], filter) ==
            Select(docs, ids[..i], filter) + if ids[i] in docs && MatchesAll(docs[ids[i]], filter) then [ids[i]] else []
  {
    assert ids[..i + 1][..i] == ids[..i];
  }

  lemma BytesStep(lim: Limits, docs: map<Id, Doc>, ids: seq<Id>, x: Id)
    requires x in docs
    ensures StoredBytes(lim, docs, ids + [x]) == StoredBytes(lim, docs, ids) + lim.stored(docs[x])
    ensures ReturnedBytes(lim, docs, ids + [x]) == ReturnedBytes(lim, docs, ids) + |x| + lim.plain(docs[x]) + 96
  {
    assert (ids + [x])[..|ids|] == ids;
  }

  lemma FilterStep(lim: Limits, docs: map<Id, Doc>, ids: seq<Id>, i: nat, filter: Filter, q: Request)
    requires i < |ids|
    ensures Select(docs, ids[..i + 1], filter) ==
            Select(docs, ids[..i], filter) + if ids[i] in docs && MatchesAll(docs[ids[i]], filter) then [ids[i]] else []
    ensures Select(docs, ids[..i + 1], map[]) == Select(docs, ids[..i], map[]) + if ids[i] in docs then [ids[i]] else []
    ensures Fits(lim, docs, Select(docs, ids, map[]), Returned(q, Select(docs, ids, filter))) ==>
              Fits(lim, docs, Select(docs, ids[..i + 1], map[]), Returned(q, Select(docs, ids[..i + 1], filter)))
  {
    SelectStep(docs, ids, i, filter);
    SelectStep(docs, ids, i, map[]);
    if Fits(lim, docs, Select(docs, ids, map[]), Returned(q, Select(docs, ids, filter))) {
      StepsFit(lim, docs, ids, i + 1, filter, q);
    }
  }

  // ---------------------------------------------------------------- the loops

  /** The loop the filtered scan, the multi-filter index path and the search path share: read every
      listed document, keep the matches, return those the page wants. */
  method FilterLoop(docs: map<Id, Doc>, ids: seq<Id>, filter: Filter, q: Request, lim: Limits)
    returns (ok: bool, documents: seq<Id>, matched: nat)
    ensures ok <==> Fits(lim, docs, Select(docs, ids, map[]), Returned(q, Select(docs, ids, filter)))
    ensures ok ==> documents == Returned(q, Select(docs, ids, filter)) && matched == |Select(docs, ids, filter)|
  {
    var budget := new QueryBudget(lim);
    documents, matched := [], 0;
    ghost var read: seq<Id>, hits: seq<Id> := [], [];
    for i := 0 to |ids|
      invariant fresh(budget) && budget.lim == lim
      invariant read == Select(docs, ids[..i], map[]) && hits == Select(docs, ids[..i], filter)
      invariant matched == |hits| && documents == Returned(q, hits)
      invariant budget.Spent(docs, read, documents)
    {
      FilterStep(lim, docs, ids, i, filter, q);
      if ids[i] in docs {
        var take: bool;
        ok, take := Visit(docs, ids[i], filter, q, budget, documents, matched, read, hits);
        if !ok { return false, [], 0; }
        read := read + [ids[i]];
        if take {
          if q.order.Some? || (matched >= q.offset && |documents| < q.limit) {
            documents := documents + [ids[i]];
          }
          hits := hits + [ids[i]];
          matched := matched + 1;
        }
      }
    }
    assert ids[..|ids|] == ids;
    return true, documents, matched;
  }

  /** One live document of that loop: pay for the scan, evaluate, pay for the return. */
  method Visit(docs: map<Id, Doc>, id: Id, filter: Filter, q: Request, budget: QueryBudget, documents: seq<Id>, matched: nat,
               ghost read: seq<Id>, ghost hits: seq<Id>)
    returns (ok: bool, matches: bool)
    requires id in docs && matched == |hits| && documents == Returned(q, hits)
    requires budget.Spent(docs, read, documents)
    modifies budget
    ensures ok ==> (matches <==> MatchesAll(docs[id], filter))
    ensures var hits' := if MatchesAll(docs[id], filter) then hits + [id] else hits;
            && (ok <==> Fits(budget.lim, docs, read + [id], Returned(q, hits')))
            && (ok ==> budget.Spent(docs, read + [id], Returned(q, hits')))
            && (ok && matches ==>
                  (Returned(q, hits') ==
                   if q.order.Some? || (matched >= q.offset && |documents| < q.limit) then documents + [id] else documents))
  {
    BytesStep(budget.lim, docs, read, id);
    BytesStep(budget.lim, docs, documents, id);
    SliceAppend(hits, id, q.offset, q.limit);
    matches := false;
    ok := budget.Scan(docs[id]);
    if !ok { return; }
    matches := EvaluateFilter(docs[id], filter);
    if matches && (q.order.Some? || (matched >= q.offset && |documents| < q.limit)) {
      ok := budget.ReturnDocument(id, docs[id]);
    }
  }

  /** The prefix of a full scan that an unfiltered, unsorted page needs. */
  function NeededPrefix(ids: seq<Id>, q: Request): seq<Id> {
    if q.offset + q.limit < |ids| then ids[..q.offset + q.limit] else ids
  }

  lemma PrefixFits(lim: Limits, docs: map<Id, Doc>, ids: seq<Id>, i: nat, q: Request)
    requires q.order.None? && i <= |NeededPrefix(ids, q)|
    requires Fits(lim, docs, NeededPrefix(ids, q), Slice(ids, q.offset, q.limit))
    ensures Fits(lim, docs, ids[..i], Slice(ids[..i], q.offset, q.limit))
  {
    FitsPrefix(lim, docs, ids[..i], Slice(ids[..i], q.offset, q.limit), NeededPrefix(ids, q), Slice(ids, q.offset, q.limit));
  }

  /** Pay for reading one document and, where the page wants it, for returning it. */
  method Pay(docs: map<Id, Doc>, id: Id, budget: QueryBudget, give: bool, documents: seq<Id>, ghost read: seq<Id>) returns (ok: bool)
    requires id in docs && budget.Spent(docs, read, documents)
    modifies budget
    ensures var documents' := if give then documents + [id] else documents;
            && (ok <==> Fits(budget.lim, docs, read + [id], documents'))
            && (ok ==> budget.Spent(docs, read + [id], documents'))
  {
    BytesStep(budget.lim, docs, read, id);
    BytesStep(budget.lim, docs, documents, id);
    ok := budget.Scan(docs[id]);
    if ok && give { ok := budget.ReturnDocument(id, docs[id]); }
  }

  lemma PlainStep(lim: Limits, docs: map<Id, Doc>, ids: seq<Id>, i: nat, q: Request)
    requires q.order.None? && i < |ids| && |Slice(ids[..i], q.offset, q.limit)| < q.limit
    ensures i + 1 <= |NeededPrefix(ids, q)|
    ensures ids[..i + 1] == ids[..i] + [ids[i]]
    ensures Slice(ids[..i + 1], q.offset, q.limit) ==
            if i >= q.offset then Slice(ids[..i], q.offset, q.limit) + [ids[i]] else Slice(ids[..i], q.offset, q.limit)
    ensures Fits(lim, docs, NeededPrefix(ids, q), Slice(ids, q.offset, q.limit)) ==>
              Fits(lim, docs, ids[..i + 1], Slice(ids[..i + 1], q.offset, q.limit))
  {
    assert ids[..i + 1] == ids[..i] + [ids[i]];
    SliceAppend(ids[..i], ids[i], q.offset, q.limit);
    if Fits(lim, docs, NeededPrefix(ids, q), Slice(ids, q.offset, q.limit)) { PrefixFits(lim, docs, ids, i + 1, q); }
  }

  lemma PlainEnd(ids: seq<Id>, i: nat, q: Request)
    requires i <= |NeededPrefix(ids, q)| && (i == |ids| || |Slice(ids[..i], q.offset, q.limit)| >= q.limit)
    requires q.limit > 0
    ensures ids[..i] == NeededPrefix(ids, q) && Slice(ids[..i], q.offset, q.limit) == Slice(ids, q.offset, q.limit)
  {
    if i == |ids| {
      assert ids[..i] == ids;
    } else {
      assert i == q.offset + q.limit;
    }
  }

  /** The scan without filter and order: it stops as soon as the page is full. */
  method PlainScan(docs: map<Id, Doc>, ids: seq<Id>, q: Request, lim: Limits) returns (ok: bool, documents: seq<Id>)
    requires q.order.None? && q.limit > 0 && forall id | id in ids :: id in docs
    ensures ok <==> Fits(lim, docs, NeededPrefix(ids, q), Slice(ids, q.offset, q.limit))
    ensures ok ==> documents == Slice(ids, q.offset, q.limit)
  {
    var budget := new QueryBudget(lim);
    documents := [];
    var matched := 0;
    while matched < |ids| && |documents| < q.limit
      invariant fresh(budget) && budget.lim == lim
      invariant matched <= |NeededPrefix(ids, q)|
      invariant documents == Slice(ids[..matched], q.offset, q.limit)
      invariant budget.Spent(docs, ids[..matched], documents)
      decreases |ids| - matched
    {
      var id := ids[matched];
      assert id in ids;
      PlainStep(lim, docs, ids, matched, q);
      var within := Pay(docs, id, budget, matched >= q.offset, documents, ids[..matched]);
      if !within { return false, []; }
      if matched >= q.offset { documents := documents + [id]; }
      matched := matched + 1;
    }
    PlainEnd(ids, matched, q);
    return true, documents;
  }

  lemma SingleStep(lim: Limits, docs: map<Id, Doc>, ids: seq<Id>, i: nat, q: Request)
    requires i < |ids| && (q.order.Some? || |Returned(q, ids[..i])| < q.limit)
    ensures Returned(q, ids[..i + 1]) ==
            if q.order.Some? || i >= q.offset then Returned(q, ids[..i]) + [ids[i]] else Returned(q, ids[..i])
    ensures Fits(lim, docs, Returned(q, ids), Returned(q, ids)) ==>
              Fits(lim, docs, Returned(q, ids[..i + 1]), Returned(q, ids[..i + 1]))
  {
    assert ids[..i + 1] == ids[..i] + [ids[i]];
    SliceAppend(ids[..i], ids[i], q.offset, q.limit);
    MoreFits(lim, docs, ids, i + 1, q);
  }

  /** The single-filter index path: every id of the value bucket matches, so only the page (or,
      to sort, everything) is read. */
  method SingleFilterPath(docs: map<Id, Doc>, ids: seq<Id>, q: Request, lim: Limits) returns (ok: bool, documents: seq<Id>)
    requires q.limit > 0
    ensures (forall id | id in ids :: id in docs) ==>
              && (ok <==> Fits(lim, docs, Returned(q, ids), Returned(q, ids)))
              && (ok ==> documents == Returned(q, ids))
  {
    var budget := new QueryBudget(lim);
    documents := [];
    var seen := 0;
    ghost var live := forall id | id in ids :: id in docs;
    var i := 0;
    while i < |ids| && (q.order.Some? || |documents| < q.limit)
      invariant fresh(budget) && budget.lim == lim
      invariant 0 <= seen <= i <= |ids| && budget.Spent(docs, documents, documents)
      invariant live ==> seen == i && documents == Returned(q, ids[..i])
      decreases |ids| - i
    {
      var id := ids[i];
      assert id in ids;
      if live { SingleStep(lim, docs, ids, i, q); }
      if q.order.Some? || seen >= q.offset {
        if id !in docs {
          i := i + 1;
          continue;
        }
        var within := Pay(docs, id, budget, true, documents, documents);
        if !within { return false, []; }
        documents := documents + [id];
      }
      seen := seen + 1;
      i := i + 1;
    }
    assert ids[..|ids|] == ids;
    if live { MoreFits(lim, docs, ids, i, q); }
    return true, documents;
  }

  lemma MoreFits(lim: Limits, docs: map<Id, Doc>, ids: seq<Id>, i: nat, q: Request)
    requires i <= |ids|
    ensures Returned(q, ids[..i]) <= Returned(q, ids)
    ensures Fits(lim, docs, Returned(q, ids), Returned(q, ids)) ==> Fits(lim, docs, Returned(q, ids[..i]), Returned(q, ids[..i]))
    ensures q.order.None? && |Returned(q, ids[..i])| >= q.limit ==> Returned(q, ids[..i]) == Returned(q, ids)
  {
    ReturnedPrefix(q, ids[..i], ids);
    if Fits(lim, docs, Returned(q, ids), Returned(q, ids)) {
      FitsPrefix(lim, docs, Returned(q, ids[..i]), Returned(q, ids[..i]), Returned(q, ids), Returned(q, ids));
    }
  }

  // ---------------------------------------------------------------- index and scan agree

  /** The ids of one value bucket. */
  function ValueBucket(bucket: set<Entry>, v: string): set<Id> {
    set e | e in bucket && e.value == v :: e.id
  }

  lemma BucketIds(docs: map<Id, Doc>, f: Field, v: string)
    ensures forall id :: id in ValueBucket(Indexed(docs, f), v) <==> id in docs && f in docs[id] && EncodeIndexValue(docs[id][f]) == v
  {
    var bucket := Indexed(docs, f);
    forall id ensures id in ValueBucket(bucket, v) <==> id in docs && f in docs[id] && EncodeIndexValue(docs[id][f]) == v {
      if id in docs && f in docs[id] && EncodeIndexValue(docs[id][f]) == v {
        assert Entry(v, id) in bucket;
      }
      if id in ValueBucket(bucket, v) {
        var e :| e in bucket && e.value == v && e.id == id;
      }
    }
  }

  lemma OneFilterLess(d: Doc, filter: Filter, f: Field)
    requires f in filter
    ensures MatchesAll(d, filter) <==> MatchesField(d, f, filter[f]) && MatchesAll(d, filter - {f})
  {
    var rest := filter - {f};
    assert forall g | g in rest :: g in filter && rest[g] == filter[g];
    assert forall g | g in filter :: g == f || g in rest;
  }

  /** With an exact index on a filtered field, selecting inside its value bucket finds the same ids
      in the same order as selecting from the whole collection. */
  lemma IndexSelectsTheSame(docs: map<Id, Doc>, bucket: set<Entry>, f: Field, filter: Filter)
    requires f in filter && bucket == Indexed(docs, f)
    ensures var ids := Ascending(ValueBucket(bucket, EncodeIndexValue(filter[f])));
            && (forall id | id in ids :: id in docs && MatchesField(docs[id], f, filter[f]))
            && Select(docs, ids, filter - {f}) == Matching(docs, filter)
  {
    var ids := Ascending(ValueBucket(bucket, EncodeIndexValue(filter[f])));
    BucketIds(docs, f, EncodeIndexValue(filter[f]));
    SameSelection(docs, ids, f, filter);
  }

  lemma SameSelection(docs: map<Id, Doc>, ids: seq<Id>, f: Field, filter: Filter)
    requires f in filter && Increasing(ids)
    requires forall id :: id in ids <==> id in docs && MatchesField(docs[id], f, filter[f])
    ensures Select(docs, ids, filter - {f}) == Matching(docs, filter)
  {
    var a, b := Select(docs, ids, filter - {f}), Matching(docs, filter);
    SelectMembers(docs, ids, filter - {f});
    SelectMembers(docs, Ascending(docs.Keys), filter);
    forall id ensures id in a <==> id in b {
      if id in docs { OneFilterLess(docs[id], filter, f); }
    }
    IncreasingUnique(a, b);
  }

  /** With a single filter every id of the bucket is a match. */
  lemma SingleFilterSelectsAll(docs: map<Id, Doc>, ids: seq<Id>, filter: Filter)
    requires filter == map[] && forall id | id in ids :: id in docs
    ensures Select(docs, ids, filter) == ids
  {
    if ids != [] {
      var front := ids[..|ids| - 1];
      assert forall id | id in front :: id in ids;
      SingleFilterSelectsAll(docs, front, filter);
      assert ids == front + [ids[|ids| - 1]];
      assert ids[|ids| - 1] in ids;
    }
  }

  /** What a full scan reads and returns for the request. */
  function ScanReads(docs: map<Id, Doc>, q: Request): seq<Id> {
    var ids := Ascending(docs.Keys);
    if q.filter == map[] && q.order.None? then NeededPrefix(ids, q) else ids
  }

  ghost predicate ScanFits(lim: Limits, docs: map<Id, Doc>, q: Request) {
    Fits(lim, docs, ScanReads(docs, q), Returned(q, Matching(docs, q.filter)))
  }

  function Front(s: seq<Id>): seq<Id>
    requires s != []
  {
    s[..|s| - 1]
  }

  lemma LastOfIncreasing(a: seq<Id>, b: seq<Id>)
    requires Increasing(a) && Increasing(b) && a != [] && forall id | id in a :: id in b
    ensures b != []
    ensures a[|a| - 1] == b[|b| - 1] ==> forall id | id in Front(a) :: id in Front(b)
    ensures a[|a| - 1] != b[|b| - 1] ==> forall id | id in a :: id in Front(b)
  {
    var fa, x := a[..|a| - 1], a[|a| - 1];
    assert a == fa + [x] && x in b;
    var fb, y := b[..|b| - 1], b[|b| - 1];
    assert b == fb + [y];
    assert forall id | id in fa :: id in a && Lt(id, x);
    LtIrreflexive(x);
    if x != y {
      assert x in fb && Lt(x, y);
      forall id | id in a ensures id in fb {
        LtIrreflexive(y);
        if id != x { LtTransitive(id, x, y); }
      }
    }
  }

  /** Bytes read over a list of distinct ids depend on the ids only, and more ids cost more. */
  lemma {:induction false} SubsetCostsLess(lim: Limits, docs: map<Id, Doc>, a: seq<Id>, b: seq<Id>)
    requires Increasing(a) && Increasing(b) && forall id | id in a :: id in b
    ensures |a| <= |b| && StoredBytes(lim, docs, a) <= StoredBytes(lim, docs, b)
    decreases |b|
  {
    if a != [] {
      LastOfIncreasing(a, b);
      if a[|a| - 1] == b[|b| - 1] {
        SubsetCostsLess(lim, docs, Front(a), Front(b));
      } else {
        SubsetCostsLess(lim, docs, a, Front(b));
      }
    }
  }

  lemma SelectIsSubset(lim: Limits, docs: map<Id, Doc>, ids: seq<Id>, part: seq<Id>, q: Request, m: seq<Id>)
    requires Increasing(ids) && Increasing(part) && forall id | id in part :: id in ids
    requires Fits(lim, docs, ids, Returned(q, m))
    ensures Fits(lim, docs, part, Returned(q, m))
  {
    SubsetCostsLess(lim, docs, part, ids);
  }

  // ---------------------------------------------------------------- the whole call

  datatype Reply = Ok(answer: Answer) | Refused(error: Error)

  const DEFAULT_LIMIT: nat := 100

  /** `limit <= 0` means the default page size. */
  function Normalize(q: Request): Request {
    if q.limit == 0 then q.(limit := DEFAULT_LIMIT) else q
  }

  predicate ValidRequest(c: Collection, q: Request) {
    ValidCollection(c) && (forall f | f in q.filter :: ValidField(f)) && (q.order.Some? ==> ValidField(q.order.value.field))
  }

  /** The first listed index whose field is filtered on. */
  method ChooseIndex(ready: seq<Field>, filter: Filter) returns (chosen: Option<Field>)
    ensures chosen.Some? ==> chosen.value in filter
                             && exists i :: 0 <= i < |ready| && ready[i] == chosen.value && forall j | 0 <= j < i :: ready[j] !in filter
    ensures chosen.None? ==> forall f | f in ready :: f !in filter
  {
    for i := 0 to |ready|
      invariant forall j | 0 <= j < i :: ready[j] !in filter
    {
      if ready[i] in filter { return Some(ready[i]); }
    }
    return None;
  }

  /** The slow path: the whole collection in key order. */
  method ScanRoute(docs: map<Id, Doc>, q: Request, lim: Limits) returns (ok: bool, ids: seq<Id>, matched: nat)
    requires q.limit > 0
    ensures ok ==> ids == Returned(q, Matching(docs, q.filter))
    ensures ok && q.filter != map[] ==> matched == |Matching(docs, q.filter)|
    ensures ok <==> ScanFits(lim, docs, q)
  {
    var all := Ascending(docs.Keys);
    SingleFilterSelectsAll(docs, all, map[]);
    if q.filter == map[] && q.order.None? {
      ok, ids := PlainScan(docs, all, q, lim);
      matched := 0;
    } else {
      ok, ids, matched := FilterLoop(docs, all, q.filter, q, lim);
    }
  }

  /** The fast path over the value bucket of one exact index. */
  method IndexRoute(docs: map<Id, Doc>, bucket: set<Entry>, f: Field, q: Request, lim: Limits)
    returns (ok: bool, ids: seq<Id>, matched: nat)
    requires q.limit > 0 && f in q.filter && bucket == Indexed(docs, f)
    ensures ok ==> ids == Returned(q, Matching(docs, q.filter)) && matched == |Matching(docs, q.filter)|
    ensures ScanFits(lim, docs, q) ==> ok
  {
    var listed := Ascending(ValueBucket(bucket, EncodeIndexValue(q.filter[f])));
    IndexSelectsTheSame(docs, bucket, f, q.filter);
    SingleFilterSelectsAll(docs, listed, map[]);
    if |q.filter| == 1 {
      OnlyThatFilter(q.filter, f);
      matched := |listed|;
      ok, ids := SingleFilterPath(docs, listed, q, lim);
    } else {
      ok, ids, matched := FilterLoop(docs, listed, q.filter - {f}, q, lim);
    }
    if ScanFits(lim, docs, q) { IndexReadsLess(lim, docs, listed, q); }
  }

  /** Whatever the scan's budget allows, it allows the index path too. */
  lemma IndexReadsLess(lim: Limits, docs: map<Id, Doc>, listed: seq<Id>, q: Request)
    requires q.filter != map[] && Increasing(listed) && forall id | id in listed :: id in docs
    requires ScanFits(lim, docs, q)
    ensures Fits(lim, docs, listed, Returned(q, Matching(docs, q.filter)))
    ensures listed == Matching(docs, q.filter) ==> Fits(lim, docs, Returned(q, listed), Returned(q, listed))
  {
    SelectIsSubset(lim, docs, Ascending(docs.Keys), listed, q, Matching(docs, q.filter));
    var part := Returned(q, listed);
    SelectIsSubset(lim, docs, Ascending(docs.Keys), part, q, Matching(docs, q.filter));
  }

  /** The path choice never changes what is found, and an index never turns a query down that the
      full scan would answer. */
  method FindIds(docs: map<Id, Doc>, ix: Indexes, c: Collection, q: Request, lim: Limits)
    returns (ok: bool, ids: seq<Id>, matched: nat)
    requires q.limit > 0
    requires forall f | f in ReadyFields(ix, c) ::
               Name(Pair(c, f)) in ix.buckets && ix.buckets[Name(Pair(c, f))] == Indexed(docs, f)
    ensures ok ==> ids == Returned(q, Matching(docs, q.filter))
    ensures ok && q.filter != map[] ==> matched == |Matching(docs, q.filter)|
    ensures ScanFits(lim, docs, q) ==> ok
    ensures (forall f | f in ReadyFields(ix, c) :: f !in q.filter) ==> (ok <==> ScanFits(lim, docs, q))
  {
    var chosen := ChooseIndex(ReadyFields(ix, c), q.filter);
    if chosen.None? {
      ok, ids, matched := ScanRoute(docs, q, lim);
    } else {
      ok, ids, matched := IndexRoute(docs, ix.buckets[Name(Pair(c, chosen.value))], chosen.value, q, lim);
    }
  }

  /** The last stage of every path: fetch, and sort and page when an order was asked for. */
  method Present(docs: map<Id, Doc>, ids: seq<Id>, q: Request, ghost m: seq<Id>) returns (documents: seq<Found>)
    requires ids == Returned(q, m) && forall id | id in m :: id in docs
    ensures documents == PageOf(docs, m, q)
  {
    documents := Fetch(docs, ids);
    if q.order.Some? && |documents| > 0 {
      documents := SortAndPageDocuments(documents, q.order.value, q.limit, q.offset);
    }
  }

  lemma OnlyThatFilter(filter: Filter, f: Field)
    requires f in filter && |filter| == 1
    ensures filter - {f} == map[]
  {
    var rest := filter - {f};
    assert |filter| == |filter.Keys| && rest.Keys == filter.Keys - {f} && |rest.Keys| == 0;
  }

  /** `ListDocumentsDetailed` without a search, on a snapshot whose listed indexes are exact (as they
      are in every run, Runs.IndexesAgreeInEveryRun): every path gives the specified answer. */
  method ListDocuments(db: Db, c: Collection, request: Request, lim: Limits) returns (reply: Reply)
    requires ReadyExact(db.docs, db.indexes)
    ensures !ValidRequest(c, request) ==> reply == Refused(InvalidName)
    ensures ValidRequest(c, request) && c !in db.docs ==> reply == Refused(NotFound)
    ensures ValidRequest(c, request) && c in db.docs ==>
              && (reply.Ok? ==> Correct(db.docs[c], EffectiveCount(db, c), Normalize(request), reply.answer))
              && (reply.Refused? ==> reply.error == QueryLimit && !ScanFits(lim, db.docs[c], Normalize(request)))
    ensures ValidRequest(c, request) && c in db.docs && (forall f | f in ReadyFields(db.indexes, c) :: f !in request.filter) ==>
              (reply.Ok? <==> ScanFits(lim, db.docs[c], Normalize(request)))
  {
    if !ValidRequest(c, request) { return Refused(InvalidName); }
    var q := Normalize(request);
    if c !in db.docs { return Refused(NotFound); }
    var docs := db.docs[c];
    var total := EffectiveCount(db, c);
    forall f | f in ReadyFields(db.indexes, c)
      ensures Name(Pair(c, f)) in db.indexes.buckets && db.indexes.buckets[Name(Pair(c, f))] == Indexed(docs, f)
    {
      assert IsReady(db.indexes, Pair(c, f));
    }
    var ok, ids, matched := FindIds(docs, db.indexes, c, q, lim);
    if !ok { return Refused(QueryLimit); }
    SelectMembers(docs, Ascending(docs.Keys), q.filter);
    var documents := Present(docs, ids, q, Matching(docs, q.filter));
    if q.filter != map[] { total := matched; }
    return Ok(Answer(documents, total));
  }

  // ---------------------------------------------------------------- the search path

  /** The postings on disk are those of the abstract tables. */
  ghost predicate Represents(postings: map<TextKey, PostingList>, t: Fts) {
    && (forall p | p in t.forward :: TextKey(p.collection, p.token) in postings && p.id in Members(postings[TextKey(p.collection, p.token)]))
    && (forall k, id | k in postings && id in Members(postings[k]) :: Posting(k.collection, k.token, id) in t.forward)
  }

  /** The document is indexed and its tokens include every query token, of which there is one. */
  ghost predicate SearchHit(r: Rules, db: Db, c: Collection, id: Id, tokens: set<Token>) {
    && Live(db.docs, c, id) && c in db.fts.config && DocKey(c, id) in db.fts.reverse
    && tokens != {} && tokens <= r.docTokens(db.docs[c][id], db.fts.config[c])
  }

  /** The ids a search starts from. */
  method FindByTokens(r: Rules, db: Db, c: Collection, tokens: set<Token>, postings: map<TextKey, PostingList>) returns (found: seq<Id>)
    requires TextInv(r, db.docs, db.fts) && Represents(postings, db.fts)
    ensures forall id :: id in found <==> SearchHit(r, db, c, id, tokens)
    ensures AllAscending(postings, c, Ascending(tokens)) ==> Increasing(found)
  {
    var listed := Ascending(tokens);
    assert Elements(listed) == tokens;
    found := SearchFts(postings, c, listed);
    SearchFindsExactlyTheHits(postings, c, listed, found);
    FoundMeaning(r, db, c, found, listed, postings);
    if AllAscending(postings, c, listed) { AscendingPostingsSuffice(postings, c, listed, found); }
  }

  /** `ListDocumentsDetailed` with a search: exactly the documents that are indexed under every query
      token and pass the filter, in id order (bucket postings) or sorted, one page. */
  method SearchDocuments(r: Rules, db: Db, c: Collection, request: Request, query: string, lim: Limits, postings: map<TextKey, PostingList>)
    returns (reply: Reply, ghost found: seq<Id>, ghost hits: seq<Id>)
    requires TextInv(r, db.docs, db.fts) && Represents(postings, db.fts)
    ensures !ValidRequest(c, request) ==> reply == Refused(InvalidName)
    ensures ValidRequest(c, request) && c !in db.docs ==> reply == Refused(NotFound)
    ensures ValidRequest(c, request) && c in db.docs ==>
              && (forall id :: id in found <==> SearchHit(r, db, c, id, r.queryTokens(query)))
              && hits == Select(db.docs[c], found, request.filter)
              && (reply.Refused? ==> reply.error == QueryLimit)
              && (reply.Ok? <==> (lim.maxDocs > 0 ==> |found| <= lim.maxDocs)
                                 && Fits(lim, db.docs[c], found, Returned(Normalize(request), hits)))
    ensures reply.Ok? ==>
              && (forall id :: id in hits <==> SearchHit(r, db, c, id, r.queryTokens(query)) && MatchesAll(db.docs[c][id], request.filter))
              && (AllAscending(postings, c, Ascending(r.queryTokens(query))) ==> Increasing(hits))
              && reply.answer.documents == PageOf(db.docs[c], hits, Normalize(request))
              && (request.filter != map[] ==> reply.answer.total == |hits|)
  {
    found, hits := [], [];
    if !ValidRequest(c, request) { reply := Refused(InvalidName); return; }
    var q := Normalize(request);
    if c !in db.docs { reply := Refused(NotFound); return; }
    var docs := db.docs[c];
    var total := EffectiveCount(db, c);
    var searchIds := FindByTokens(r, db, c, r.queryTokens(query), postings);
    found, hits := searchIds, Select(docs, searchIds, q.filter);
    SelectMembers(docs, found, q.filter);
    SingleFilterSelectsAll(docs, found, map[]);
    if lim.maxDocs > 0 && |searchIds| > lim.maxDocs { reply := Refused(QueryLimit); return; }
    var ok, ids, matched := FilterLoop(docs, searchIds, q.filter, q, lim);
    if !ok { reply := Refused(QueryLimit); return; }
    var documents := Present(docs, ids, q, hits);
    if q.filter != map[] { total := matched; }
    reply := Ok(Answer(documents, total));
  }

  lemma FoundMeaning(r: Rules, db: Db, c: Collection, found: seq<Id>, tokens: seq<Token>, postings: map<TextKey, PostingList>)
    requires TextInv(r, db.docs, db.fts) && Represents(postings, db.fts)
    requires tokens == [] ==> found == []
    requires tokens != [] ==> forall id :: id in found <==> HasAll(postings, c, tokens, id)
    ensures forall id :: id in found <==> SearchHit(r, db, c, id, Elements(tokens))
  {
    forall id ensures id in found <==> SearchHit(r, db, c, id, Elements(tokens)) {
      SearchMeaning(r, db, c, id, tokens, postings);
    }
  }

  lemma SearchMeaning(r: Rules, db: Db, c: Collection, id: Id, tokens: seq<Token>, postings: map<TextKey, PostingList>)
    requires TextInv(r, db.docs, db.fts) && Represents(postings, db.fts)
    ensures SearchHit(r, db, c, id, Elements(tokens)) <==> tokens != [] && HasAll(postings, c, tokens, id)
  {
    if tokens != [] {
      assert tokens[0] in Elements(tokens);
      PostedUnderAllIffTokensIncluded(r, db.docs, db.fts, c, id, Elements(tokens));
      forall t | t in tokens
        ensures TextKey(c, t) in postings && id in Members(postings[TextKey(c, t)]) <==> Posting(c, t, id) in db.fts.forward
      {
      }
    } else {
      assert Elements(tokens) == {};
    }
  }
}
