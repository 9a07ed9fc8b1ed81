/** The whole engine at run time: one database, any number of index builders on distinct pairs,
    any number of full-text backfills, and writers interleaving with all of them between their
    transactions. */
module Engine {
  import opened ByteOrder
  import opened Documents
  import opened Keys
  import opened Storage
  import opened SecondaryIndex
  import opened FullText
  import opened TtlTables
  import opened EventLog
  import opened Writes
  import opened Invariants
  import opened PurgeProofs
  import opened Maintenance
  import opened Outbox

  /** A running `CreateIndex`: how far its scan stands, and the batch read but not yet applied. */
  datatype Builder = Builder(pos: Option<Id>, done: bool, batch: seq<IndexEntry>, failed: bool)

  /** A running or finished `SetFTSConfig` with the fields it was called with; `reign` tells which
      configuration it works for. */
  datatype Filler = Filler(collection: Collection, fields: seq<Field>, reign: nat, pos: Option<Id>, done: bool, batch: seq<TextEntry>)

  /** `reigns[c]` counts the configurations and erasures of a collection so far; `courier` is what
      the webhook workers hold. */
  datatype System = System(db: Db, builders: map<Pair, Builder>, fillers: seq<Filler>, reigns: map<Collection, nat>, courier: Courier)

  datatype Write =
    | DoCreate(c: Collection, body: Body, candidates: seq<Id>, expireIn: Lifetime)
    | DoPut(c: Collection, id: Id, body: Body, expected: Expected, expireIn: Lifetime)
    | DoPatch(c: Collection, id: Id, body: Body, expected: Expected)
    | DoRemove(c: Collection, id: Id, expected: Expected)
    | DoTransaction(ops: seq<TxOp>)
    | DoPurge
    | DoCreateCollection(c: Collection)

  datatype Step =
    | WriteStep(write: Write, now: Time)
    | DropCollectionStep(c: Collection)
    | DropIndexStep(p: Pair)
    | StartIndex(p: Pair)
    | CollectIndex(p: Pair, pos: Option<Id>, done: bool, batch: seq<IndexEntry>)
    | ApplyIndex(p: Pair)
    | FinishIndex(p: Pair)
    | AbortIndex(p: Pair)
    | ConfigureStep(c: Collection, fields: seq<Field>)
    | CollectText(i: nat, pos: Option<Id>, done: bool, texts: seq<TextEntry>)
    | ApplyText(i: nat)
    | WebhookStep(move: Move)

  predicate ValidWrite(w: Write) {
    w.DoCreate? ==> |w.candidates| == ID_ATTEMPTS && forall id | id in w.candidates :: ValidSegment(id)
  }

  function Written(r: Rules, db: Db, w: Write, now: Time): Db
    requires ValidWrite(w)
  {
    match w
    case DoCreate(c, body, candidates, expireIn) => After(db, Create(r, db, c, body, candidates, expireIn, now))
    case DoPut(c, id, body, expected, expireIn) => After(db, Put(r, db, c, id, body, expected, expireIn, now))
    case DoPatch(c, id, body, expected) => After(db, Patch(r, db, c, id, body, expected, now))
    case DoRemove(c, id, expected) => After(db, Remove(r, db, c, id, expected, now))
    case DoTransaction(ops) => AfterTx(db, Transact(r, db, ops, now))
    case DoPurge => Purge(r, db, now)
    case DoCreateCollection(c) => After(db, CreateCollection(db, c))
  }

  function Reign(s: System, c: Collection): nat {
    if c in s.reigns then s.reigns[c] else 0
  }

  /** The outbox and its workers, as module Outbox sees them. */
  function WorkersOf(s: System): Workers {
    Workers(s.db.events, s.courier)
  }

  /** When a step may happen. `pairs` are the index definitions a run may use: the hypothesis on
      bucket names. A build of a pair starts only when no other build of it is running. */
  ghost predicate Enabled(r: Rules, pairs: set<Pair>, s: System, step: Step) {
    match step
    case WriteStep(w, _) => ValidWrite(w)
    case DropCollectionStep(_) => true
    case DropIndexStep(p) => p in pairs
    case StartIndex(p) => p in pairs && p !in s.builders
    case CollectIndex(p, pos, done, batch) =>
      && p in s.builders && !s.builders[p].failed && !s.builders[p].done && s.builders[p].batch == []
      && p.collection in s.db.docs
      && IndexBatchOf(s.db.docs[p.collection], p.field, s.builders[p].pos, pos, done, batch)
    case ApplyIndex(p) => p in s.builders && !s.builders[p].failed && s.builders[p].batch != []
    case FinishIndex(p) => p in s.builders && !s.builders[p].failed && s.builders[p].done && s.builders[p].batch == []
    case AbortIndex(p) => p in s.builders
    case ConfigureStep(_, _) => true
    case CollectText(i, pos, done, batch) =>
      && i < |s.fillers| && !s.fillers[i].done && s.fillers[i].batch == []
      && (if s.fillers[i].collection in s.db.docs
          then TextBatchOf(s.db.docs[s.fillers[i].collection], s.fillers[i].pos, pos, done, batch)
          else done && batch == [])
    case ApplyText(i) => i < |s.fillers| && s.fillers[i].batch != []
    case WebhookStep(m) => !m.Commit? && Possible(WorkersOf(s), m)
  }

  function Applied(s: System, p: Pair, db: Db): System
    requires p in s.builders
  {
    s.(db := db, builders := s.builders[p := s.builders[p].(batch := [])])
  }

  ghost function Next(r: Rules, s: System, step: Step): System
    requires step.WriteStep? ==> ValidWrite(step.write)
  {
    match step
    case WriteStep(w, now) => s.(db := Written(r, s.db, w, now))
    case DropCollectionStep(c) =>
      if DeleteCollection(s.db, c).Done?
      then s.(db := DeleteCollection(s.db, c).db, reigns := s.reigns[c := Reign(s, c) + 1])
      else s
    case DropIndexStep(p) => s.(db := After(s.db, DeleteIndex(s.db, p)))
    case StartIndex(p) =>
      var o := StartIndexBuild(s.db, p);
      if o.Done? then s.(db := o.db, builders := s.builders[p := Builder(None, false, [], false)]) else s
    case CollectIndex(p, pos, done, batch) =>
      s.(builders := s.builders[p := Builder(pos, done, batch, false)])
    case ApplyIndex(p) =>
      if p !in s.builders then s
      else
        var b := s.builders[p];
        match ApplyIndexBatch(s.db, p, b.batch) {
          case Done(db, _) => Applied(s, p, db)
          case Fails(_) => s.(builders := s.builders[p := b.(failed := true)])
        }
    case FinishIndex(p) =>
      if p !in s.builders then s
      else
        match FinishIndexBuild(s.db, p) {
          case Done(db, _) => s.(db := db, builders := s.builders - {p})
          case Fails(_) => s.(builders := s.builders[p := s.builders[p].(failed := true)])
        }
    case AbortIndex(p) => s.(db := AbortIndexBuild(s.db, p), builders := s.builders - {p})
    case ConfigureStep(c, fields) =>
      var o := ConfigureText(s.db, c, fields);
      if o.Done?
      then s.(db := o.db, fillers := s.fillers + [Filler(c, fields, Reign(s, c) + 1, None, false, [])], reigns := s.reigns[c := Reign(s, c) + 1])
      else s
    case CollectText(i, pos, done, batch) =>
      if i < |s.fillers| then s.(fillers := s.fillers[i := s.fillers[i].(pos := pos, done := done, batch := batch)]) else s
    case ApplyText(i) =>
      if i < |s.fillers|
      then s.(db := ApplyTextBatch(r, s.db, s.fillers[i].collection, s.fillers[i].batch),
              fillers := s.fillers[i := s.fillers[i].(batch := [])])
      else s
    case WebhookStep(m) =>
      if Possible(WorkersOf(s), m)
      then s.(db := s.db.(events := Apply(WorkersOf(s), m).events), courier := Apply(WorkersOf(s), m).courier)
      else s
  }

  // ---------------------------------------------------------------- the invariant

  ghost predicate InjectiveNames(pairs: set<Pair>) {
    forall p, q | p in pairs && q in pairs && Name(p) == Name(q) :: p == q
  }

  /** Whatever the build has passed is indexed, or waits unchanged in the pending batch. */
  ghost predicate IndexCovered(db: Db, p: Pair, b: Builder) {
    var missing := MissingFromIndex(db, p);
    forall id | id in missing && Passed(b.pos, b.done, id) ::
      p.field in missing[id] && IndexEntry(id, ComputeETag(missing[id]), EncodeIndexValue(missing[id][p.field])) in b.batch
  }

  /** Every pending entry is what its tag's content encodes to. */
  ghost predicate BatchSound(p: Pair, batch: seq<IndexEntry>) {
    forall e | e in batch :: EntryOf(p.field, e.id, e.etag.content) == {Entry(e.value, e.id)}
  }

  ghost predicate TextCovered(r: Rules, db: Db, f: Filler) {
    var missing := MissingFromText(r, db, f.collection);
    forall id | id in missing && Passed(f.pos, f.done, id) ::
      TextEntry(id, ComputeETag(missing[id]), missing[id]) in f.batch
  }

  ghost predicate TextBatchSound(batch: seq<TextEntry>) {
    forall e | e in batch :: e.doc == e.etag.content
  }

  ghost predicate BuildersInv(pairs: set<Pair>, s: System) {
    && s.builders.Keys <= pairs
    && (forall p | InUse(s.db.indexes, p) :: p in pairs)
    && s.db.indexes.building <= s.builders.Keys
    && (forall p | p in s.builders :: !IsReady(s.db.indexes, p) && BatchSound(p, s.builders[p].batch))
    && (forall p | p in s.db.indexes.building :: IndexCovered(s.db, p, s.builders[p]))
  }

  ghost predicate FillersInv(r: Rules, s: System) {
    forall i | 0 <= i < |s.fillers| ::
      && TextBatchSound(s.fillers[i].batch)
      && s.fillers[i].reign <= Reign(s, s.fillers[i].collection)
      && (s.fillers[i].reign == Reign(s, s.fillers[i].collection) ==> TextCovered(r, s.db, s.fillers[i]))
  }

  ghost predicate SystemInv(r: Rules, pairs: set<Pair>, s: System) {
    DbInv(r, s.db) && BuildersInv(pairs, s) && FillersInv(r, s) && WorkersInv(WorkersOf(s))
  }

  const InitialSystem: System := System(EmptyDb, map[], [], map[], NoCourier)

  lemma InitialInv(r: Rules, pairs: set<Pair>)
    ensures SystemInv(r, pairs, InitialSystem)
  {
  }
}
