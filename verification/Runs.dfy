/** What holds in every run of the engine, whatever the interleaving. */
module Runs {
  import opened ByteOrder
  import opened Documents
  import opened Keys
  import opened Storage
  import opened SecondaryIndex
  import opened FullText
  import opened TtlTables
  import opened EventLog
  import opened Writes
  import opened Invariants
  import opened PurgeProofs
  import opened Maintenance
  import opened Outbox
  import opened Engine
  import opened WriterProofs
  import opened BuildProofs
  import opened BackfillProofs
  import opened Configurations

  /** The invariant holds after any enabled step, whatever the interleaving. */
  lemma StepKeepsInv(r: Rules, pairs: set<Pair>, s: System, step: Step)
    requires SystemInv(r, pairs, s) && InjectiveNames(pairs) && Enabled(r, pairs, s, step)
    ensures SystemInv(r, pairs, Next(r, s, step))
  {
    match step
    case WriteStep(w, now) =>
      WriteKeepsInv(r, s.db, w, now);
      ConsiderateKeepsInv(r, pairs, s, Written(r, s.db, w, now));
    case DropCollectionStep(c) => DropCollectionStepKeepsInv(r, pairs, s, c);
    case DropIndexStep(p) => DropIndexStepKeepsInv(r, pairs, s, p);
    case StartIndex(p) => StartStepKeepsInv(r, pairs, s, p);
    case CollectIndex(p, pos, done, batch) => CollectStepKeepsInv(r, pairs, s, p, pos, done, batch);
    case ApplyIndex(p) => ApplyStepKeepsInv(r, pairs, s, p);
    case FinishIndex(p) => FinishStepKeepsInv(r, pairs, s, p);
    case AbortIndex(p) => AbortStepKeepsInv(r, pairs, s, p);
    case ConfigureStep(c, fields) => ConfigureStepKeepsInv(r, pairs, s, c, fields);
    case CollectText(i, pos, done, texts) => CollectTextKeepsInv(r, pairs, s, i, pos, done, texts);
    case ApplyText(i) => ApplyTextStepKeepsInv(r, pairs, s, i);
    case WebhookStep(m) => WebhookStepKeepsInv(r, pairs, s, m);
  }

  /** What a webhook worker does touches the outbox only. */
  lemma WebhookStepKeepsInv(r: Rules, pairs: set<Pair>, s: System, m: Move)
    requires SystemInv(r, pairs, s) && Enabled(r, pairs, s, WebhookStep(m))
    ensures SystemInv(r, pairs, Next(r, s, WebhookStep(m)))
  {
    var s' := Next(r, s, WebhookStep(m));
    MoveKeepsInv(WorkersOf(s), m);
    OnlyEventsChange(r, pairs, s, s');
  }

  lemma OnlyEventsChange(r: Rules, pairs: set<Pair>, s: System, s': System)
    requires SystemInv(r, pairs, s) && WorkersInv(WorkersOf(s'))
    requires s' == s.(db := s.db.(events := s'.db.events), courier := s'.courier)
    ensures SystemInv(r, pairs, s')
  {
    TextUntouched(r, s.db, s'.db);
    forall p | p in s'.db.indexes.building ensures IndexCovered(s'.db, p, s'.builders[p]) {
      assert MissingFromIndex(s'.db, p) == MissingFromIndex(s.db, p);
      assert IndexCovered(s.db, p, s.builders[p]);
    }
    FillersKept(r, s, s');
  }

  /** The states a run of enabled steps goes through. */
  ghost predicate IsRun(r: Rules, pairs: set<Pair>, states: seq<System>, steps: seq<Step>) {
    && |states| == |steps| + 1
    && states[0] == InitialSystem
    && forall i | 0 <= i < |steps| :: Enabled(r, pairs, states[i], steps[i]) && states[i + 1] == Next(r, states[i], steps[i])
  }

  lemma {:induction false} RunKeepsInv(r: Rules, pairs: set<Pair>, states: seq<System>, steps: seq<Step>, i: nat)
    requires InjectiveNames(pairs) && IsRun(r, pairs, states, steps) && i < |states|
    ensures SystemInv(r, pairs, states[i])
  {
    if i == 0 {
      InitialInv(r, pairs);
    } else {
      RunKeepsInv(r, pairs, states, steps, i - 1);
      StepKeepsInv(r, pairs, states[i - 1], steps[i - 1]);
    }
  }

  lemma StepKeepsHistory(r: Rules, pairs: set<Pair>, s: System, step: Step)
    requires SystemInv(r, pairs, s) && Enabled(r, pairs, s, step) && !step.DropCollectionStep?
    requires Faithful(s.db)
    ensures Faithful(Next(r, s, step).db)
  {
    if step.WriteStep? {
      WriteKeepsInv(r, s.db, step.write, step.now);
    } else if step.ApplyText? {
      ApplyTextKeepsInv(r, s.db, s.fillers[step.i].collection, s.fillers[step.i].batch);
    } else {
      DocumentsUntouched(r, s, step);
    }
  }

  lemma DocumentsUntouched(r: Rules, s: System, step: Step)
    requires !step.WriteStep? && !step.ApplyText? && !step.DropCollectionStep? && (step.WebhookStep? ==> !step.move.Commit?)
    ensures Next(r, s, step).db.docs == s.db.docs && Next(r, s, step).db.events.history == s.db.events.history
    ensures !step.WebhookStep? ==> Next(r, s, step).db.events == s.db.events
  {
    if step.WebhookStep? && Possible(WorkersOf(s), step.move) { MovesKeepHistory(WorkersOf(s), step.move); }
  }

  lemma MovesKeepHistory(w: Workers, m: Move)
    requires Possible(w, m) && !m.Commit?
    ensures Apply(w, m).events.history == w.events.history
  {
  }

  /** In every run without collection deletion the recorded history folds to exactly the stored
      documents, with inserts only of absent and updates and deletes only of present ones. */
  lemma {:induction false} HistoryFoldsInEveryRun(r: Rules, pairs: set<Pair>, states: seq<System>, steps: seq<Step>, i: nat)
    requires InjectiveNames(pairs) && IsRun(r, pairs, states, steps) && i < |states|
    requires forall j | 0 <= j < i :: !steps[j].DropCollectionStep?
    ensures FoldsTo(states[i].db.events.history, states[i].db.docs) && WellActed(states[i].db.events.history)
  {
    if i == 0 {
      EmptyDbInv(r);
    } else {
      HistoryFoldsInEveryRun(r, pairs, states, steps, i - 1);
      RunKeepsInv(r, pairs, states, steps, i - 1);
      StepKeepsHistory(r, pairs, states[i - 1], steps[i - 1]);
    }
  }

  /** In every run events are numbered without gaps, the log is their newest suffix, the count is
      exact and its clamp never needed, and no index bucket is left without an owner. */
  lemma BooksBalanceInEveryRun(r: Rules, pairs: set<Pair>, states: seq<System>, steps: seq<Step>, i: nat, c: Collection)
    requires InjectiveNames(pairs) && IsRun(r, pairs, states, steps) && i < |states|
    ensures LogInv(states[i].db.events)
    ensures EffectiveCount(states[i].db, c) == |DocsOf(states[i].db.docs, c)|
    ensures TtlInv(states[i].db.docs, states[i].db.ttl)
    ensures TextInv(r, states[i].db.docs, states[i].db.fts)
    ensures NoOrphans(states[i].db.indexes)
  {
    RunKeepsInv(r, pairs, states, steps, i);
    CountIsExact(r, states[i].db, c);
  }

  /** In every run no index holds a stale entry at any step, and every listed index holds exactly
      the encoded values of the current documents. */
  lemma IndexesAgreeInEveryRun(r: Rules, pairs: set<Pair>, states: seq<System>, steps: seq<Step>, i: nat, p: Pair)
    requires InjectiveNames(pairs) && IsRun(r, pairs, states, steps) && i < |states|
    requires InUse(states[i].db.indexes, p)
    ensures var db := states[i].db;
            var expected := Indexed(DocsOf(db.docs, p.collection), p.field);
            && Name(p) in db.indexes.buckets
            && db.indexes.buckets[Name(p)] <= expected
            && (IsReady(db.indexes, p) ==> db.indexes.buckets[Name(p)] == expected)
  {
    RunKeepsInv(r, pairs, states, steps, i);
  }

  /** In every run the search configuration in force is that of the latest call for the collection. */
  lemma {:induction false} ConfigInEveryRun(r: Rules, pairs: set<Pair>, states: seq<System>, steps: seq<Step>, i: nat)
    requires InjectiveNames(pairs) && IsRun(r, pairs, states, steps) && i < |states|
    ensures ConfigInv(states[i])
  {
    if i > 0 {
      ConfigInEveryRun(r, pairs, states, steps, i - 1);
      RunKeepsInv(r, pairs, states, steps, i - 1);
      StepKeepsConfig(r, pairs, states[i - 1], steps[i - 1]);
    }
  }

  /** A call that has scanned to the end, applied what it read and was not overtaken. */
  predicate Filled(s: System, j: nat) {
    j < |s.fillers| && s.fillers[j].done && s.fillers[j].batch == [] && IsLatest(s, j)
  }

  lemma FilledTextIsComplete(r: Rules, pairs: set<Pair>, s: System, j: nat, id: Id, w: Token)
    requires SystemInv(r, pairs, s) && ConfigInv(s) && Filled(s, j)
    ensures Posting(s.fillers[j].collection, w, id) in s.db.fts.forward <==>
            Live(s.db.docs, s.fillers[j].collection, id) && w in r.docTokens(s.db.docs[s.fillers[j].collection][id], s.fillers[j].fields)
  {
    var db, f := s.db, s.fillers[j];
    var c := f.collection;
    if Live(db.docs, c, id) && Searchable(r, db.fts, c, db.docs[c][id]) {
      assert TextCovered(r, db, f);
      assert id !in MissingFromText(r, db, c);
      assert DocKey(c, id) in db.fts.reverse;
    }
  }

  /** In every run, once a `SetFTSConfig` has scanned to the end and no later configuration or erasure
      has overtaken it, a posting is there exactly for every token that a current document has in the
      fields the call asked for. */
  lemma BackfilledTextIsComplete(r: Rules, pairs: set<Pair>, states: seq<System>, steps: seq<Step>, i: nat, j: nat, id: Id, w: Token)
    requires InjectiveNames(pairs) && IsRun(r, pairs, states, steps) && i < |states| && Filled(states[i], j)
    ensures var db, f := states[i].db, states[i].fillers[j];
            Posting(f.collection, w, id) in db.fts.forward <==>
            Live(db.docs, f.collection, id) && w in r.docTokens(db.docs[f.collection][id], f.fields)
  {
    RunKeepsInv(r, pairs, states, steps, i);
    ConfigInEveryRun(r, pairs, states, steps, i);
    FilledTextIsComplete(r, pairs, states[i], j, id, w);
  }

  // ---------------------------------------------------------------- the outbox in every run

  /** A step of the engine, as the outbox sees it. */
  ghost function MoveOf(r: Rules, s: System, step: Step): Move
    requires step.WriteStep? ==> ValidWrite(step.write)
  {
    if step.WebhookStep? then step.move else Commit(Next(r, s, step).db.events)
  }

  lemma OthersKeepCourier(r: Rules, s: System, step: Step)
    requires step.WriteStep? ==> ValidWrite(step.write)
    requires !step.WebhookStep?
    ensures Next(r, s, step).courier == s.courier
    ensures !step.WriteStep? && !step.ApplyText? ==> Next(r, s, step).db.events == s.db.events
  {
  }

  lemma StepIsMove(r: Rules, pairs: set<Pair>, s: System, step: Step)
    requires SystemInv(r, pairs, s) && InjectiveNames(pairs) && Enabled(r, pairs, s, step)
    ensures Possible(WorkersOf(s), MoveOf(r, s, step))
    ensures WorkersOf(Next(r, s, step)) == Apply(WorkersOf(s), MoveOf(r, s, step))
  {
    if !step.WebhookStep? {
      StepKeepsInv(r, pairs, s, step);
      OthersKeepCourier(r, s, step);
      StepExtends(r, pairs, s, step);
    }
  }

  lemma StepExtends(r: Rules, pairs: set<Pair>, s: System, step: Step)
    requires SystemInv(r, pairs, s) && Enabled(r, pairs, s, step) && !step.WebhookStep?
    ensures Extends(s.db.events, Next(r, s, step).db.events)
  {
    if step.WriteStep? {
      WriteKeepsInv(r, s.db, step.write, step.now);
    } else if step.ApplyText? {
      ApplyTextKeepsInv(r, s.db, s.fillers[step.i].collection, s.fillers[step.i].batch);
    } else {
      OthersKeepCourier(r, s, step);
    }
  }

  /** Every run of the engine, seen at its outbox, is a history of module Outbox: what is proved
      there of claims, leases and records holds while writers, builders and purges run. */
  lemma RunsAreOutboxHistories(r: Rules, pairs: set<Pair>, states: seq<System>, steps: seq<Step>)
    returns (workers: seq<Workers>, moves: seq<Move>)
    requires InjectiveNames(pairs) && IsRun(r, pairs, states, steps)
    ensures IsHistory(workers, moves) && |workers| == |states|
    ensures forall i | 0 <= i < |states| :: workers[i] == WorkersOf(states[i])
    ensures forall i | 0 <= i < |steps| && steps[i].WebhookStep? :: moves[i] == steps[i].move
  {
    StartsWithoutWork(r, pairs, states, steps);
    workers := seq(|states|, i requires 0 <= i < |states| => WorkersOf(states[i]));
    moves := MovesOf(r, pairs, states, steps, |steps|);
    assert forall i | 0 <= i < |moves| :: Leads(workers[i], moves[i], workers[i + 1]);
  }

  lemma {:induction false} MovesOf(r: Rules, pairs: set<Pair>, states: seq<System>, steps: seq<Step>, n: nat) returns (moves: seq<Move>)
    requires InjectiveNames(pairs) && IsRun(r, pairs, states, steps) && n <= |steps|
    ensures |moves| == n
    ensures forall i | 0 <= i < n :: Leads(WorkersOf(states[i]), moves[i], WorkersOf(states[i + 1]))
    ensures forall i | 0 <= i < n && steps[i].WebhookStep? :: moves[i] == steps[i].move
  {
    moves := [];
    if n > 0 {
      var front := MovesOf(r, pairs, states, steps, n - 1);
      var m := RunStepIsMove(r, pairs, states, steps, n - 1);
      moves := front + [m];
    }
  }

  lemma StartsWithoutWork(r: Rules, pairs: set<Pair>, states: seq<System>, steps: seq<Step>)
    requires IsRun(r, pairs, states, steps)
    ensures WorkersOf(states[0]) == NoWork
  {
  }

  lemma RunStepIsMove(r: Rules, pairs: set<Pair>, states: seq<System>, steps: seq<Step>, n: nat) returns (m: Move)
    requires InjectiveNames(pairs) && IsRun(r, pairs, states, steps) && n < |steps|
    ensures Leads(WorkersOf(states[n]), m, WorkersOf(states[n + 1]))
    ensures steps[n].WebhookStep? ==> m == steps[n].move
  {
    RunKeepsInv(r, pairs, states, steps, n);
    StepIsMove(r, pairs, states[n], steps[n]);
    m := MoveOf(r, states[n], steps[n]);
  }

  /** In every run, whatever writers, purges and webhook workers do: the record under a committed
      event's number holds exactly that event, or that event was delivered. */
  lemma EveryEventIsKeptOrDelivered(r: Rules, pairs: set<Pair>, states: seq<System>, steps: seq<Step>, i: nat, k: nat)
    requires InjectiveNames(pairs) && IsRun(r, pairs, states, steps) && i < |states| && 1 <= k <= states[i].db.events.last
    ensures var v := states[i].db.events;
            && k <= |v.history|
            && (k in v.outbox ==> v.outbox[k].event == v.history[k - 1])
            && (k !in v.outbox ==> v.history[k - 1] in states[i].courier.succeeded)
  {
    var workers, moves := RunsAreOutboxHistories(r, pairs, states, steps);
    CommittedUntilDelivered(workers, moves, i, k);
  }
}
