/** Which search configuration is in force: in every state the one the latest `SetFTSConfig` of the
    collection was called with, whatever runs beside it. */
module Configurations {
  import opened ByteOrder
  import opened Documents
  import opened Keys
  import opened Storage
  import opened SecondaryIndex
  import opened FullText
  import opened EventLog
  import opened Writes
  import opened Invariants
  import opened Maintenance
  import opened MaintenanceEffects
  import opened Effects
  import opened Outbox
  import opened Engine
  import opened BackfillProofs

  /** A call whose configuration has not been replaced or erased finds its own fields stored; and
      every stored configuration is that of such a call. */
  ghost predicate ConfigInv(s: System) {
    && (forall i | 0 <= i < |s.fillers| && s.fillers[i].reign == Reign(s, s.fillers[i].collection) ::
          s.fillers[i].collection in s.db.fts.config && s.db.fts.config[s.fillers[i].collection] == s.fillers[i].fields)
    && (forall c | c in s.db.fts.config :: exists i :: 0 <= i < |s.fillers| && IsLatest(s, i) && s.fillers[i].collection == c)
  }

  predicate IsLatest(s: System, i: nat)
    requires i < |s.fillers|
  {
    s.fillers[i].reign == Reign(s, s.fillers[i].collection)
  }

  /** No document write touches a definition. */
  lemma WritesKeepDefinitions(r: Rules, db: Db, w: Write, now: Time)
    requires DbInv(r, db) && ValidWrite(w)
    ensures SameDefinitions(db, Written(r, db, w, now))
  {
    match w
    case DoCreate(c, body, candidates, expireIn) => var i := CreateWrites(r, db, c, body, candidates, expireIn, now);
    case DoPut(c, id, body, expected, expireIn) => PutWrites(r, db, c, id, body, expected, expireIn, now);
    case DoPatch(c, id, body, expected) => PatchWrites(r, db, c, id, body, expected, now);
    case DoRemove(c, id, expected) => RemoveWrites(r, db, c, id, expected, now);
    case DoTransaction(ops) =>
      if Transact(r, db, ops, now).Committed? { LastOperationWins(r, db, ops, now, "", ""); }
    case DoPurge => PurgeKeepsDefinitions(r, db, now);
    case DoCreateCollection(c) => CreateCollectionMakes(db, c);
  }

  /** The steps that leave search configurations and their calls alone. */
  lemma QuietStep(r: Rules, s: System, step: Step)
    requires !step.WriteStep? && !step.DropCollectionStep? && !step.ConfigureStep? && !step.ApplyText?
    ensures var s' := Next(r, s, step);
            s'.db.fts == s.db.fts && s'.reigns == s.reigns && SameCalls(s, s')
  {
  }

  /** The same calls, however far they have come. */
  ghost predicate SameCalls(s: System, s': System) {
    && |s'.fillers| == |s.fillers|
    && forall i | 0 <= i < |s.fillers| ::
         s'.fillers[i].collection == s.fillers[i].collection && s'.fillers[i].fields == s.fillers[i].fields
         && s'.fillers[i].reign == s.fillers[i].reign
  }

  lemma WriteKeepsConfig(r: Rules, s: System, w: Write, now: Time)
    requires DbInv(r, s.db) && ValidWrite(w) && ConfigInv(s)
    ensures ConfigInv(Next(r, s, WriteStep(w, now)))
  {
    WritesKeepDefinitions(r, s.db, w, now);
    SameConfig(s, Next(r, s, WriteStep(w, now)));
  }

  lemma ApplyOutcome(r: Rules, s: System, i: nat, s': System)
    requires i < |s.fillers| && s' == Next(r, s, ApplyText(i))
    ensures s'.db == ApplyTextBatch(r, s.db, s.fillers[i].collection, s.fillers[i].batch)
    ensures s'.reigns == s.reigns && SameCalls(s, s')
  {
  }

  lemma ApplyKeepsConfig(r: Rules, s: System, i: nat)
    requires DbInv(r, s.db) && FillersInv(r, s) && ConfigInv(s) && i < |s.fillers|
    ensures ConfigInv(Next(r, s, ApplyText(i)))
  {
    var s' := Next(r, s, ApplyText(i));
    ApplyTextKeepsInv(r, s.db, s.fillers[i].collection, s.fillers[i].batch);
    ApplyOutcome(r, s, i, s');
    SameConfig(s, s');
  }

  lemma StepKeepsConfig(r: Rules, pairs: set<Pair>, s: System, step: Step)
    requires SystemInv(r, pairs, s) && Enabled(r, pairs, s, step) && ConfigInv(s)
    ensures ConfigInv(Next(r, s, step))
  {
    match step
    case WriteStep(w, now) => WriteKeepsConfig(r, s, w, now);
    case DropCollectionStep(c) => DropKeepsConfig(r, s, c);
    case ConfigureStep(c, fields) => ConfigureKeepsConfig(r, s, c, fields);
    case ApplyText(i) => ApplyKeepsConfig(r, s, i);
    case _ =>
      QuietStep(r, s, step);
      SameConfig(s, Next(r, s, step));
  }

  lemma SameConfig(s: System, s': System)
    requires ConfigInv(s) && s'.db.fts.config == s.db.fts.config && s'.reigns == s.reigns && SameCalls(s, s')
    ensures ConfigInv(s')
  {
    forall c | c in s'.db.fts.config ensures exists i :: 0 <= i < |s'.fillers| && IsLatest(s', i) && s'.fillers[i].collection == c {
      var i :| 0 <= i < |s.fillers| && IsLatest(s, i) && s.fillers[i].collection == c;
      assert IsLatest(s', i);
    }
  }

  lemma DropKeepsConfig(r: Rules, s: System, c: Collection)
    requires FillersInv(r, s) && ConfigInv(s)
    ensures ConfigInv(Next(r, s, DropCollectionStep(c)))
  {
    var s' := Next(r, s, DropCollectionStep(c));
    forall d | d in s'.db.fts.config ensures exists i :: 0 <= i < |s'.fillers| && IsLatest(s', i) && s'.fillers[i].collection == d {
      var i :| 0 <= i < |s.fillers| && IsLatest(s, i) && s.fillers[i].collection == d;
      assert IsLatest(s', i);
    }
  }

  lemma ConfigureOutcome(r: Rules, s: System, c: Collection, fields: seq<Field>, s': System)
    requires s' == Next(r, s, ConfigureStep(c, fields))
    ensures ConfigureText(s.db, c, fields).Fails? ==> s' == s
    ensures ConfigureText(s.db, c, fields).Done? ==>
              && s'.db == ConfigureText(s.db, c, fields).db
              && s'.fillers == s.fillers + [Filler(c, fields, Reign(s, c) + 1, None, false, [])]
              && s'.reigns == s.reigns[c := Reign(s, c) + 1]
  {
  }

  lemma ConfigureKeepsConfig(r: Rules, s: System, c: Collection, fields: seq<Field>)
    requires FillersInv(r, s) && ConfigInv(s)
    ensures ConfigInv(Next(r, s, ConfigureStep(c, fields)))
  {
    var s' := Next(r, s, ConfigureStep(c, fields));
    ConfigureOutcome(r, s, c, fields, s');
    ConfigureTextStores(s.db, c, fields);
    if ConfigureText(s.db, c, fields).Done? {
      ConfigReplaced(s, s', Filler(c, fields, Reign(s, c) + 1, None, false, []));
    }
  }

  lemma ConfigReplaced(s: System, s': System, f: Filler)
    requires ConfigInv(s) && forall i | 0 <= i < |s.fillers| :: s.fillers[i].reign <= Reign(s, s.fillers[i].collection)
    requires f.reign == Reign(s, f.collection) + 1
    requires s'.fillers == s.fillers + [f] && s'.reigns == s.reigns[f.collection := f.reign]
    requires f.collection in s'.db.fts.config && s'.db.fts.config[f.collection] == f.fields
    requires forall d | d != f.collection :: (d in s'.db.fts.config <==> d in s.db.fts.config)
                                            && (d in s.db.fts.config ==> s'.db.fts.config[d] == s.db.fts.config[d])
    ensures ConfigInv(s')
  {
    assert IsLatest(s', |s.fillers|);
    forall d | d in s'.db.fts.config ensures exists i :: 0 <= i < |s'.fillers| && IsLatest(s', i) && s'.fillers[i].collection == d {
      if d != f.collection {
        var i :| 0 <= i < |s.fillers| && IsLatest(s, i) && s.fillers[i].collection == d;
        assert IsLatest(s', i);
      }
    }
  }
}
