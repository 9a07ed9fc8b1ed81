/** What indexing and unindexing one document does to the `_idx_…` buckets, and the
    index invariant it keeps. */
module SecondaryIndex {
  import opened ByteOrder
  import opened Documents
  import opened Keys
  import opened Storage

  function Name(p: Pair): string {
    IndexBucketName(p.collection, p.field)
  }

  predicate IsReady(ix: Indexes, p: Pair) {
    p.collection in ix.ready && p.field in ix.ready[p.collection]
  }

  predicate InUse(ix: Indexes, p: Pair) {
    IsReady(ix, p) || p in ix.building
  }

  function ReadyFields(ix: Indexes, c: Collection): seq<Field> {
    if c in ix.ready then ix.ready[c] else []
  }

  /** `getWritableIndexFieldsTx`, as a set. */
  function WritableFields(ix: Indexes, c: Collection): (r: set<Field>)
    ensures forall f :: f in r <==> InUse(ix, Pair(c, f))
  {
    (set f | f in ReadyFields(ix, c)) + (set p | p in ix.building && p.collection == c :: p.field)
  }

  /** The entries one document contributes to the bucket called `name`. */
  function Entries(c: Collection, fields: set<Field>, id: Id, d: Doc, name: string): set<Entry> {
    set f | f in fields && f in d && Name(Pair(c, f)) == name :: Entry(EncodeIndexValue(d[f]), id)
  }

  function IndexDoc(ix: Indexes, c: Collection, id: Id, d: Doc): Indexes {
    ix.(buckets := map n | n in ix.buckets :: ix.buckets[n] + Entries(c, WritableFields(ix, c), id, d, n))
  }

  function UnindexDoc(ix: Indexes, c: Collection, id: Id, d: Doc): Indexes {
    ix.(buckets := map n | n in ix.buckets :: ix.buckets[n] - Entries(c, WritableFields(ix, c), id, d, n))
  }

  /** The entries an index on `f` should hold: one for every document that has the field. */
  ghost function Indexed(docs: map<Id, Doc>, f: Field): set<Entry> {
    set id | id in docs && f in docs[id] :: Entry(EncodeIndexValue(docs[id][f]), id)
  }

  ghost predicate DistinctNames(ix: Indexes) {
    forall p, q | InUse(ix, p) && InUse(ix, q) && Name(p) == Name(q) :: p == q
  }

  ghost predicate NoStale(docs: map<Collection, map<Id, Doc>>, ix: Indexes) {
    forall p | InUse(ix, p) ::
      Name(p) in ix.buckets && ix.buckets[Name(p)] <= Indexed(DocsOf(docs, p.collection), p.field)
  }

  ghost predicate ReadyExact(docs: map<Collection, map<Id, Doc>>, ix: Indexes) {
    forall p | IsReady(ix, p) ::
      Name(p) in ix.buckets && ix.buckets[Name(p)] == Indexed(DocsOf(docs, p.collection), p.field)
  }

  /** No bucket without an owner: deleted indexes and collections leave none behind. */
  ghost predicate NoOrphans(ix: Indexes) {
    forall n | n in ix.buckets :: exists p :: InUse(ix, p) && Name(p) == n
  }

  ghost predicate OnlyExisting(docs: map<Collection, map<Id, Doc>>, ix: Indexes) {
    forall p | InUse(ix, p) :: p.collection in docs
  }

  ghost predicate Disjoint(ix: Indexes) {
    forall p :: !(IsReady(ix, p) && p in ix.building)
  }

  ghost predicate IndexInv(docs: map<Collection, map<Id, Doc>>, ix: Indexes) {
    && DistinctNames(ix)
    && NoStale(docs, ix)
    && ReadyExact(docs, ix)
    && OnlyExisting(docs, ix)
    && Disjoint(ix)
  }

  ghost function EntryOf(f: Field, id: Id, d: Doc): set<Entry> {
    if f in d then {Entry(EncodeIndexValue(d[f]), id)} else {}
  }

  lemma EntriesAt(c: Collection, fields: set<Field>, id: Id, d: Doc, f: Field)
    requires f in fields
    ensures Entries(c, fields, id, d, Name(Pair(c, f))) == EntryOf(f, id, d)
  {
    forall g | Name(Pair(c, g)) == Name(Pair(c, f)) ensures g == f {
      IndexBucketNameInjectiveInField(c, g, f);
    }
  }

  /** A document step reaches exactly the in-use buckets of its collection: distinct names keep
      it away from every other index. */
  lemma EntriesElsewhere(ix: Indexes, c: Collection, id: Id, d: Doc, p: Pair)
    requires DistinctNames(ix) && InUse(ix, p) && p.collection != c
    ensures Entries(c, WritableFields(ix, c), id, d, Name(p)) == {}
  {
    forall f | f in WritableFields(ix, c) ensures Name(Pair(c, f)) != Name(p) {
      assert InUse(ix, Pair(c, f));
    }
  }

  /** The index part of any document step: take the old version out, put the new one in. */
  function Reindex(ix: Indexes, c: Collection, id: Id, was: Option<Doc>, now: Option<Doc>): Indexes {
    var out := if was.Some? then UnindexDoc(ix, c, id, was.value) else ix;
    if now.Some? then IndexDoc(out, c, id, now.value) else out
  }

  ghost function EntryOfOption(f: Field, id: Id, d: Option<Doc>): set<Entry> {
    if d.Some? then EntryOf(f, id, d.value) else {}
  }

  lemma ReindexBucket(ix: Indexes, c: Collection, id: Id, was: Option<Doc>, now: Option<Doc>, p: Pair)
    requires DistinctNames(ix) && InUse(ix, p) && Name(p) in ix.buckets
    ensures Reindex(ix, c, id, was, now).ready == ix.ready && Reindex(ix, c, id, was, now).building == ix.building
    ensures Reindex(ix, c, id, was, now).buckets.Keys == ix.buckets.Keys
    ensures Reindex(ix, c, id, was, now).buckets[Name(p)] ==
            if p.collection == c
            then ix.buckets[Name(p)] - EntryOfOption(p.field, id, was) + EntryOfOption(p.field, id, now)
            else ix.buckets[Name(p)]
  {
    var out := if was.Some? then UnindexDoc(ix, c, id, was.value) else ix;
    assert WritableFields(out, c) == WritableFields(ix, c);
    if p.collection == c {
      if was.Some? { EntriesAt(c, WritableFields(ix, c), id, was.value, p.field); }
      if now.Some? { EntriesAt(c, WritableFields(ix, c), id, now.value, p.field); }
    } else {
      if was.Some? { EntriesElsewhere(ix, c, id, was.value, p); }
      if now.Some? { EntriesElsewhere(ix, c, id, now.value, p); }
    }
  }

  lemma IndexedReplaced(docs: map<Id, Doc>, id: Id, now: Option<Doc>, f: Field)
    ensures var was := if id in docs then Some(docs[id]) else None;
            && EntryOfOption(f, id, was) <= Indexed(docs, f)
            && (forall e | e in Indexed(docs, f) && e.id == id :: e in EntryOfOption(f, id, was))
            && Indexed(Replaced(docs, id, now), f) ==
               Indexed(docs, f) - EntryOfOption(f, id, was) + EntryOfOption(f, id, now)
  {
    var docs' := Replaced(docs, id, now);
    var was := if id in docs then Some(docs[id]) else None;
    forall e: Entry | e.id != id
      ensures e in Indexed(docs', f) <==> e in Indexed(docs, f)
    {
      assert e.id in docs' <==> e.id in docs;
    }
    forall e: Entry | e.id == id
      ensures e in Indexed(docs', f) <==> e in EntryOfOption(f, id, now)
      ensures e in Indexed(docs, f) <==> e in EntryOfOption(f, id, was)
    {
      assert id in docs' <==> now.Some?;
    }
  }

  /** Every document step keeps the index invariant: ready indexes stay exact, indexes under
      construction never hold a stale entry. */
  lemma ReindexKeepsInv(docs: map<Collection, map<Id, Doc>>, ix: Indexes, c: Collection, id: Id, now: Option<Doc>)
    requires IndexInv(docs, ix)
    requires c in docs
    ensures var was := if id in docs[c] then Some(docs[c][id]) else None;
            IndexInv(docs[c := Replaced(docs[c], id, now)], Reindex(ix, c, id, was, now))
  {
    var was := if id in docs[c] then Some(docs[c][id]) else None;
    var docs' := docs[c := Replaced(docs[c], id, now)];
    var ix' := Reindex(ix, c, id, was, now);
    forall p | InUse(ix, p)
      ensures Name(p) in ix'.buckets
      ensures ix'.buckets[Name(p)] <= Indexed(DocsOf(docs', p.collection), p.field)
      ensures IsReady(ix, p) ==> ix'.buckets[Name(p)] == Indexed(DocsOf(docs', p.collection), p.field)
    {
      ReindexBucket(ix, c, id, was, now, p);
      if p.collection == c {
        IndexedReplaced(docs[c], id, now, p.field);
      }
    }
    assert ix'.ready == ix.ready && ix'.building == ix.building && ix'.buckets.Keys == ix.buckets.Keys;
    assert forall p :: InUse(ix', p) == InUse(ix, p);
  }

  // ---------------------------------------------------------------- builds and deletion

  /** `startIndexBuild` past its checks: a fresh empty bucket and a build marker. */
  function StartBuild(ix: Indexes, p: Pair): Indexes {
    ix.(buckets := ix.buckets[Name(p) := {}], building := ix.building + {p})
  }

  /** `deleteIndexBucketAndBuildTx`. */
  function DropBuild(ix: Indexes, p: Pair): Indexes {
    ix.(buckets := ix.buckets - {Name(p)}, building := ix.building - {p})
  }

  function Without(fields: seq<Field>, f: Field): (r: seq<Field>)
    ensures forall g :: g in r <==> g in fields && g != f
  {
    if fields == [] then []
    else if fields[0] == f then Without(fields[1..], f)
    else [fields[0]] + Without(fields[1..], f)
  }

  /** `DeleteIndex` on a ready field. */
  function DropReady(ix: Indexes, p: Pair): Indexes
    requires IsReady(ix, p)
  {
    DropBuild(ix.(ready := ix.ready[p.collection := Without(ix.ready[p.collection], p.field)]), p)
  }

  /** `finishIndexBuild` on a field not yet listed. */
  function Promote(ix: Indexes, p: Pair): Indexes {
    ix.(ready := ix.ready[p.collection := ReadyFields(ix, p.collection) + [p.field]], building := ix.building - {p})
  }

  function NamesOf(c: Collection, fields: set<Field>): set<string> {
    set f | f in fields :: Name(Pair(c, f))
  }

  /** The index part of `DeleteCollection`. */
  function DropCollection(ix: Indexes, c: Collection): Indexes {
    Indexes(
      ix.ready - {c},
      (set p | p in ix.building && p.collection != c),
      ix.buckets - NamesOf(c, WritableFields(ix, c))
    )
  }

  lemma StartBuildKeepsInv(docs: map<Collection, map<Id, Doc>>, ix: Indexes, p: Pair)
    requires IndexInv(docs, ix) && p.collection in docs && !IsReady(ix, p)
    requires forall q | InUse(ix, q) && Name(q) == Name(p) :: q == p
    ensures IndexInv(docs, StartBuild(ix, p))
  {
    var ix' := StartBuild(ix, p);
    assert forall q :: InUse(ix', q) <==> InUse(ix, q) || q == p;
    assert forall q :: IsReady(ix', q) <==> IsReady(ix, q);
    assert forall q | InUse(ix, q) && q != p :: Name(q) != Name(p);
  }

  lemma DropKeepsInv(docs: map<Collection, map<Id, Doc>>, ix: Indexes, ix': Indexes, p: Pair)
    requires IndexInv(docs, ix)
    requires forall q | InUse(ix, q) && Name(q) == Name(p) :: q == p
    requires ix' == if IsReady(ix, p) then DropReady(ix, p) else DropBuild(ix, p)
    ensures IndexInv(docs, ix')
  {
    assert forall q :: InUse(ix', q) <==> InUse(ix, q) && q != p;
    assert forall q :: IsReady(ix', q) <==> IsReady(ix, q) && q != p;
  }

  lemma PromoteKeepsInv(docs: map<Collection, map<Id, Doc>>, ix: Indexes, p: Pair)
    requires IndexInv(docs, ix) && p in ix.building
    requires Indexed(DocsOf(docs, p.collection), p.field) <= ix.buckets[Name(p)]
    ensures IndexInv(docs, Promote(ix, p))
  {
    var ix' := Promote(ix, p);
    assert forall q :: IsReady(ix', q) <==> IsReady(ix, q) || q == p;
    assert forall q :: InUse(ix', q) <==> InUse(ix, q);
  }

  lemma DropCollectionKeepsInv(docs: map<Collection, map<Id, Doc>>, ix: Indexes, c: Collection)
    requires IndexInv(docs, ix)
    ensures IndexInv(docs - {c}, DropCollection(ix, c))
    ensures forall q :: InUse(DropCollection(ix, c), q) <==> InUse(ix, q) && q.collection != c
    ensures forall q | InUse(ix, q) && q.collection != c ::
              Name(q) in DropCollection(ix, c).buckets && DropCollection(ix, c).buckets[Name(q)] == ix.buckets[Name(q)]
  {
    var ix' := DropCollection(ix, c);
    assert forall q :: IsReady(ix', q) <==> IsReady(ix, q) && q.collection != c;
    assert forall q :: InUse(ix', q) <==> InUse(ix, q) && q.collection != c;
    forall q | InUse(ix, q) && q.collection != c ensures Name(q) in ix'.buckets {
      forall f | f in WritableFields(ix, c) ensures Name(Pair(c, f)) != Name(q) {
        assert InUse(ix, Pair(c, f));
      }
    }
  }

  lemma StaysTidy(ix: Indexes, ix': Indexes)
    requires NoOrphans(ix)
    requires forall n | n in ix'.buckets && n !in ix.buckets :: exists q :: InUse(ix', q) && Name(q) == n
    requires forall q | InUse(ix, q) && Name(q) in ix'.buckets :: InUse(ix', q)
    ensures NoOrphans(ix')
  {
    forall n | n in ix'.buckets ensures exists q :: InUse(ix', q) && Name(q) == n {
      if n in ix.buckets {
        var q :| InUse(ix, q) && Name(q) == n;
        assert InUse(ix', q);
      }
    }
  }

  lemma StartBuildTidy(ix: Indexes, p: Pair)
    requires NoOrphans(ix)
    ensures NoOrphans(StartBuild(ix, p))
  {
    assert InUse(StartBuild(ix, p), p);
    StaysTidy(ix, StartBuild(ix, p));
  }

  lemma DropTidy(ix: Indexes, p: Pair)
    requires NoOrphans(ix)
    ensures NoOrphans(DropBuild(ix, p))
    ensures IsReady(ix, p) ==> NoOrphans(DropReady(ix, p))
  {
    StaysTidy(ix, DropBuild(ix, p));
    if IsReady(ix, p) {
      var ix' := DropReady(ix, p);
      forall q | InUse(ix, q) && Name(q) in ix'.buckets ensures InUse(ix', q) {
        assert q != p;
      }
      StaysTidy(ix, ix');
    }
  }

  lemma PromoteTidy(ix: Indexes, p: Pair)
    requires NoOrphans(ix)
    ensures NoOrphans(Promote(ix, p))
  {
    var ix' := Promote(ix, p);
    assert forall q :: IsReady(ix', q) <==> IsReady(ix, q) || q == p;
    StaysTidy(ix, ix');
  }

  lemma DropCollectionTidy(ix: Indexes, c: Collection)
    requires NoOrphans(ix)
    ensures NoOrphans(DropCollection(ix, c))
  {
    var ix' := DropCollection(ix, c);
    forall q | InUse(ix, q) && Name(q) in ix'.buckets ensures InUse(ix', q) {
      assert q == Pair(q.collection, q.field);
    }
    StaysTidy(ix, ix');
  }

  lemma ReindexTidy(ix: Indexes, c: Collection, id: Id, was: Option<Doc>, now: Option<Doc>)
    requires NoOrphans(ix)
    ensures NoOrphans(Reindex(ix, c, id, was, now))
  {
    var ix' := Reindex(ix, c, id, was, now);
    assert ix'.ready == ix.ready && ix'.building == ix.building && ix'.buckets.Keys == ix.buckets.Keys;
    StaysTidy(ix, ix');
  }
}
