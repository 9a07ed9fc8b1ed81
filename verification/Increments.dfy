/** No lost update: clients that raise a counter field under an ETag guard, by put, by patch or
    inside a transaction, while others write beside them. */
module Increments {
  import opened ByteOrder
  import opened Documents
  import opened Keys
  import opened Storage
  import opened Writes
  import opened Invariants
  import opened PurgeProofs
  import opened Engine
  import opened WriterProofs
  import opened Laws

  /** The counter field of one document, and how its numbers are printed. */
  datatype Target = Target(c: Collection, id: Id, f: Field, show: real -> string)

  predicate Counts(t: Target, d: Doc) {
    t.f in d && d[t.f].Num?
  }

  function Raised(t: Target, d: Doc): Value
    requires Counts(t, d)
  {
    Num(d[t.f].n + 1.0, t.show(d[t.f].n + 1.0))
  }

  function RaisedDoc(t: Target, d: Doc): Doc
    requires Counts(t, d)
  {
    d[t.f := Raised(t, d)]
  }

  function Counter(db: Db, t: Target): real {
    match Current(db, t.c, t.id)
    case Some(d) => if Counts(t, d) then d[t.f].n else 0.0
    case None => 0.0
  }

  /** One operation of a transaction: it raises the counter, by put or by patch, or it addresses
      another document. */
  datatype Part = PutOp(seen: Doc, bytes: nat) | PatchOp(seen: Doc, bytes: nat) | OtherOp(op: TxOp)

  /** What one client does. Every increment carries what that client last read, or expects an earlier
      operation to have left, however wrongly. */
  datatype Deed =
    | PutUp(seen: Doc, expireIn: Lifetime)
    | PatchUp(seen: Doc)
    | TransactUp(parts: seq<Part>)
    | Beside(write: Write)

  datatype Turn = Turn(deed: Deed, now: Time)

  predicate OpElsewhere(t: Target, op: TxOp) {
    op.collection != t.c || op.id != t.id
  }

  predicate Fitting(t: Target, p: Part) {
    if p.OtherOp? then OpElsewhere(t, p.op) else Counts(t, p.seen)
  }

  function OpOf(t: Target, p: Part): TxOp
    requires Fitting(t, p)
  {
    match p
    case PutOp(seen, bytes) => TxOp(OpPut, t.c, t.id, Object(RaisedDoc(t, seen)), Guard(seen), bytes)
    case PatchOp(seen, bytes) => TxOp(OpPatch, t.c, t.id, Object(map[t.f := Raised(t, seen)]), Guard(seen), bytes)
    case OtherOp(op) => op
  }

  function OpsOf(t: Target, parts: seq<Part>): (ops: seq<TxOp>)
    requires forall p | p in parts :: Fitting(t, p)
    ensures |ops| == |parts| && forall i | 0 <= i < |ops| :: ops[i] == OpOf(t, parts[i])
  {
    seq(|parts|, i requires 0 <= i < |parts| => OpOf(t, parts[i]))
  }

  /** How many of the operations raise the counter. */
  function Raises(parts: seq<Part>): nat {
    if parts == [] then 0
    else Raises(parts[..|parts| - 1]) + if parts[|parts| - 1].OtherOp? then 0 else 1
  }

  /** A write that does not address the document: another id, an id that is taken already, or a
      purge before the document is due. */
  predicate Elsewhere(db: Db, t: Target, w: Write, now: Time) {
    match w
    case DoCreate(c, _, candidates, _) => c != t.c || t.id !in candidates || Live(db.docs, t.c, t.id)
    case DoPut(c, id, _, _, _) => c != t.c || id != t.id
    case DoPatch(c, id, _, _) => c != t.c || id != t.id
    case DoRemove(c, id, _) => c != t.c || id != t.id
    case DoTransaction(ops) => forall op | op in ops :: OpElsewhere(t, op)
    case DoPurge => DocKey(t.c, t.id) in db.ttl.byDoc ==> db.ttl.byDoc[DocKey(t.c, t.id)] > now
    case DoCreateCollection(_) => true
  }

  predicate Sensible(db: Db, t: Target, d: Deed, now: Time) {
    match d
    case PutUp(seen, _) => Counts(t, seen)
    case PatchUp(seen) => Counts(t, seen)
    case TransactUp(parts) => forall p | p in parts :: Fitting(t, p)
    case Beside(w) => ValidWrite(w) && Elsewhere(db, t, w, now)
  }

  /** The database after a turn, and how many increments succeeded in it. */
  datatype Result = Result(db: Db, raised: nat)

  function Settled(db: Db, o: Outcome): Result {
    Result(After(db, o), if o.Done? then 1 else 0)
  }

  function Take(r: Rules, db: Db, t: Target, u: Turn): Result
    requires Sensible(db, t, u.deed, u.now)
  {
    match u.deed
    case PutUp(seen, expireIn) => Settled(db, Put(r, db, t.c, t.id, Object(RaisedDoc(t, seen)), Guard(seen), expireIn, u.now))
    case PatchUp(seen) => Settled(db, Patch(r, db, t.c, t.id, Object(map[t.f := Raised(t, seen)]), Guard(seen), u.now))
    case TransactUp(parts) =>
      var o := Transact(r, db, OpsOf(t, parts), u.now);
      Result(AfterTx(db, o), if o.Committed? then Raises(parts) else 0)
    case Beside(w) => Result(Written(r, db, w, u.now), 0)
  }

  // ---------------------------------------------------------------- writes beside the document

  lemma MutateElsewhere(r: Rules, db: Db, c: Collection, id: Id, now: Option<Doc>, ttl: TtlChange, time: Time, t: Target)
    requires c in db.docs && (now.None? ==> id in db.docs[c]) && (c != t.c || id != t.id)
    ensures Current(Mutate(r, db, c, id, now, ttl, time), t.c, t.id) == Current(db, t.c, t.id)
  {
  }

  lemma EnsureLeaves(db: Db, c: Collection, t: Target)
    ensures Current(EnsureCollection(db, c), t.c, t.id) == Current(db, t.c, t.id)
  {
  }

  lemma TxStepElsewhere(r: Rules, db: Db, op: TxOp, now: Time, t: Target)
    requires TxStep(r, db, op, now).Done? && OpElsewhere(t, op)
    ensures Current(TxStep(r, db, op, now).db, t.c, t.id) == Current(db, t.c, t.id)
  {
    var db1 := EnsureCollection(db, op.collection);
    EnsureLeaves(db, op.collection, t);
    match op.action
    case OpPut => MutateElsewhere(r, db1, op.collection, op.id, Some(op.body.fields), Clear, now, t);
    case OpPatch => MutateElsewhere(r, db1, op.collection, op.id, Some(db1.docs[op.collection][op.id] + Patched(op.body)), Keep, now, t);
    case OpDelete => MutateElsewhere(r, db1, op.collection, op.id, None, Clear, now, t);
  }

  lemma {:induction false} TxFoldElsewhere(r: Rules, db: Db, ops: seq<TxOp>, now: Time, t: Target)
    requires TxFold(r, db, ops, now).Committed? && forall op | op in ops :: OpElsewhere(t, op)
    ensures Current(TxFold(r, db, ops, now).db, t.c, t.id) == Current(db, t.c, t.id)
  {
    if ops != [] {
      var front, op := ops[..|ops| - 1], ops[|ops| - 1];
      assert op in ops && forall o | o in front :: o in ops;
      TxFoldElsewhere(r, db, front, now, t);
      TxStepElsewhere(r, TxFold(r, db, front, now).db, op, now, t);
    }
  }

  lemma CreateElsewhere(r: Rules, db: Db, c: Collection, body: Body, candidates: seq<Id>, expireIn: Lifetime, now: Time, t: Target)
    requires |candidates| == ID_ATTEMPTS && (c != t.c || t.id !in candidates || Live(db.docs, t.c, t.id))
    ensures Current(After(db, Create(r, db, c, body, candidates, expireIn, now)), t.c, t.id) == Current(db, t.c, t.id)
  {
    if Create(r, db, c, body, candidates, expireIn, now).Done? {
      var db1 := EnsureCollection(db, c);
      EnsureLeaves(db, c, t);
      FreshIdIsCandidate(db1.docs[c], candidates);
      MutateElsewhere(r, db1, c, FreshId(db1.docs[c], candidates).value, Some(body.fields),
                      if expireIn.Lasts? then ExpireAt(now + expireIn.seconds) else Keep, now, t);
    }
  }

  lemma PutElsewhere(r: Rules, db: Db, c: Collection, id: Id, body: Body, expected: Expected, expireIn: Lifetime, now: Time, t: Target)
    requires c != t.c || id != t.id
    ensures Current(After(db, Put(r, db, c, id, body, expected, expireIn, now)), t.c, t.id) == Current(db, t.c, t.id)
  {
    if Put(r, db, c, id, body, expected, expireIn, now).Done? {
      EnsureLeaves(db, c, t);
      MutateElsewhere(r, EnsureCollection(db, c), c, id, Some(body.fields), ExpiryFor(now, expireIn), now, t);
    }
  }

  lemma PatchElsewhere(r: Rules, db: Db, c: Collection, id: Id, body: Body, expected: Expected, now: Time, t: Target)
    requires c != t.c || id != t.id
    ensures Current(After(db, Patch(r, db, c, id, body, expected, now)), t.c, t.id) == Current(db, t.c, t.id)
  {
    if Patch(r, db, c, id, body, expected, now).Done? {
      PatchIsMutate(r, db, c, id, body, expected, now);
      MutateElsewhere(r, db, c, id, Some(db.docs[c][id] + Patched(body)), Keep, now, t);
    }
  }

  lemma RemoveElsewhere(r: Rules, db: Db, c: Collection, id: Id, expected: Expected, now: Time, t: Target)
    requires c != t.c || id != t.id
    ensures Current(After(db, Remove(r, db, c, id, expected, now)), t.c, t.id) == Current(db, t.c, t.id)
  {
    if Remove(r, db, c, id, expected, now).Done? {
      MutateElsewhere(r, db, c, id, None, Clear, now, t);
    }
  }

  lemma PurgeElsewhere(r: Rules, db: Db, now: Time, t: Target)
    requires DbInv(r, db)
    requires DocKey(t.c, t.id) in db.ttl.byDoc ==> db.ttl.byDoc[DocKey(t.c, t.id)] > now
    ensures Current(Purge(r, db, now), t.c, t.id) == Current(db, t.c, t.id)
  {
    PurgeRemovesExactlyTheExpired(r, db, now);
    assert Live(Purge(r, db, now).docs, t.c, t.id) <==> Live(db.docs, t.c, t.id);
  }

  lemma WriteElsewhere(r: Rules, db: Db, t: Target, w: Write, now: Time)
    requires DbInv(r, db) && ValidWrite(w) && Elsewhere(db, t, w, now)
    ensures Current(Written(r, db, w, now), t.c, t.id) == Current(db, t.c, t.id)
  {
    match w
    case DoCreate(c, body, candidates, expireIn) => CreateElsewhere(r, db, c, body, candidates, expireIn, now, t);
    case DoPut(c, id, body, expected, expireIn) => PutElsewhere(r, db, c, id, body, expected, expireIn, now, t);
    case DoPatch(c, id, body, expected) => PatchElsewhere(r, db, c, id, body, expected, now, t);
    case DoRemove(c, id, expected) => RemoveElsewhere(r, db, c, id, expected, now, t);
    case DoTransaction(ops) =>
      if Transact(r, db, ops, now).Committed? { TxFoldElsewhere(r, db, ops, now, t); }
    case DoPurge => PurgeElsewhere(r, db, now, t);
    case DoCreateCollection(c) => EnsureLeaves(db, c, t);
  }

  // ---------------------------------------------------------------- increments

  lemma PutRaises(r: Rules, db: Db, t: Target, seen: Doc, expireIn: Lifetime, now: Time)
    requires Counts(t, seen)
    ensures var o := Put(r, db, t.c, t.id, Object(RaisedDoc(t, seen)), Guard(seen), expireIn, now);
            Counter(After(db, o), t) == Counter(db, t) + if o.Done? then 1.0 else 0.0
  {
    GuardedPutIsCompareAndSwap(r, db, t.c, t.id, Object(RaisedDoc(t, seen)), seen, expireIn, now);
  }

  lemma PatchRaises(r: Rules, db: Db, t: Target, seen: Doc, now: Time)
    requires Counts(t, seen)
    ensures var o := Patch(r, db, t.c, t.id, Object(map[t.f := Raised(t, seen)]), Guard(seen), now);
            Counter(After(db, o), t) == Counter(db, t) + if o.Done? then 1.0 else 0.0
  {
    GuardedPatchIsCompareAndSwap(r, db, t.c, t.id, Object(map[t.f := Raised(t, seen)]), seen, now);
  }

  lemma PartRaises(r: Rules, db: Db, t: Target, p: Part, now: Time)
    requires Fitting(t, p) && TxStep(r, db, OpOf(t, p), now).Done?
    ensures Counter(TxStep(r, db, OpOf(t, p), now).db, t) == Counter(db, t) + if p.OtherOp? then 0.0 else 1.0
  {
    if p.OtherOp? {
      TxStepElsewhere(r, db, p.op, now, t);
    } else {
      GuardedTxOpIsCompareAndSwap(r, db, OpOf(t, p), p.seen, now);
      assert EnsureCollection(db, t.c) == db;
    }
  }

  lemma LastOfFold(r: Rules, db: Db, ops: seq<TxOp>, now: Time)
    requires ops != [] && TxFold(r, db, ops, now).Committed?
    ensures var front := TxFold(r, db, ops[..|ops| - 1], now);
            && front.Committed? && TxStep(r, front.db, ops[|ops| - 1], now).Done?
            && TxFold(r, db, ops, now).db == TxStep(r, front.db, ops[|ops| - 1], now).db
  {
  }

  lemma {:induction false} TransactionRaises(r: Rules, db: Db, t: Target, parts: seq<Part>, now: Time)
    requires forall p | p in parts :: Fitting(t, p)
    requires TxFold(r, db, OpsOf(t, parts), now).Committed?
    ensures Counter(TxFold(r, db, OpsOf(t, parts), now).db, t) == Counter(db, t) + Raises(parts) as real
  {
    if parts != [] {
      var front, p := parts[..|parts| - 1], parts[|parts| - 1];
      assert p in parts && forall q | q in front :: q in parts;
      assert OpsOf(t, parts)[..|parts| - 1] == OpsOf(t, front);
      LastOfFold(r, db, OpsOf(t, parts), now);
      TransactionRaises(r, db, t, front, now);
      PartRaises(r, TxFold(r, db, OpsOf(t, front), now).db, t, p, now);
    }
  }

  lemma TakeRaises(r: Rules, db: Db, t: Target, u: Turn)
    requires DbInv(r, db) && Sensible(db, t, u.deed, u.now)
    ensures Counter(Take(r, db, t, u).db, t) == Counter(db, t) + Take(r, db, t, u).raised as real
  {
    match u.deed
    case PutUp(seen, expireIn) => PutRaises(r, db, t, seen, expireIn, u.now);
    case PatchUp(seen) => PatchRaises(r, db, t, seen, u.now);
    case TransactUp(parts) =>
      if Transact(r, db, OpsOf(t, parts), u.now).Committed? { TransactionRaises(r, db, t, parts, u.now); }
    case Beside(w) => WriteElsewhere(r, db, t, w, u.now);
  }

  lemma TakeKeepsInv(r: Rules, db: Db, t: Target, u: Turn)
    requires DbInv(r, db) && Sensible(db, t, u.deed, u.now)
    ensures DbInv(r, Take(r, db, t, u).db)
  {
    match u.deed
    case PutUp(seen, expireIn) => PutKeepsInv(r, db, t.c, t.id, Object(RaisedDoc(t, seen)), Guard(seen), expireIn, u.now);
    case PatchUp(seen) => PatchKeepsInv(r, db, t.c, t.id, Object(map[t.f := Raised(t, seen)]), Guard(seen), u.now);
    case TransactUp(parts) => TransactKeepsInv(r, db, OpsOf(t, parts), u.now);
    case Beside(w) => WriteKeepsInv(r, db, w, u.now);
  }

  // ---------------------------------------------------------------- runs

  /** `last` is reached from `db` by the turns, with so many successful increments among them. */
  ghost predicate Leads(r: Rules, db: Db, t: Target, turns: seq<Turn>, last: Db, successes: nat)
    decreases |turns|
  {
    if turns == [] then last == db && successes == 0
    else
      var u := turns[0];
      Sensible(db, t, u.deed, u.now) &&
      var next := Take(r, db, t, u);
      next.raised <= successes && Leads(r, next.db, t, turns[1..], last, successes - next.raised)
  }

  lemma FirstTurn(r: Rules, db: Db, t: Target, turns: seq<Turn>, last: Db, successes: nat) returns (next: Db, raised: nat)
    requires DbInv(r, db) && turns != [] && Leads(r, db, t, turns, last, successes)
    ensures DbInv(r, next) && Counter(next, t) == Counter(db, t) + raised as real
    ensures raised <= successes && Leads(r, next, t, turns[1..], last, successes - raised)
  {
    var taken := Take(r, db, t, turns[0]);
    TakeKeepsInv(r, db, t, turns[0]);
    TakeRaises(r, db, t, turns[0]);
    return taken.db, taken.raised;
  }

  /** Any number of clients interleaving with any other writers: n successful guarded increments
      raise the counter by exactly n. */
  lemma {:induction false} IncrementsAddUp(r: Rules, db: Db, t: Target, turns: seq<Turn>, last: Db, successes: nat)
    requires DbInv(r, db) && Leads(r, db, t, turns, last, successes)
    ensures Counter(last, t) == Counter(db, t) + successes as real
    decreases |turns|
  {
    if turns != [] {
      var next, raised := FirstTurn(r, db, t, turns, last, successes);
      IncrementsAddUp(r, next, t, turns[1..], last, successes - raised);
    }
  }
}
