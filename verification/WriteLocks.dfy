/** `lockDatabaseWrite`: one mutex per database name, kept in a map from which `DeleteDatabase`
    removes it. The threads that work on one name, interleaved step by step. */
module WriteLocks {
  import opened ByteOrder

  /** Where a thread is: outside, waiting for the mutex it found, inside its critical section, or
      (`DeleteDatabase` only) past it, the map entry already removed, the mutex not yet released. */
  datatype Pc = Away | Waiting(lock: nat) | Holding(lock: nat) | Leaving(lock: nat)

  /** The map entry of the name, how many mutexes were ever made, and the threads. */
  datatype Locks = Locks(entry: Option<nat>, made: nat, pcs: seq<Pc>)

  datatype Step = Find(t: nat) | Take(t: nat) | Release(t: nat) | Forget(t: nat)

  predicate Has(pc: Pc, lock: nat) {
    pc == Holding(lock) || pc == Leaving(lock)
  }

  predicate Enabled(s: Locks, step: Step) {
    step.t < |s.pcs| &&
    match step
    case Find(t) => s.pcs[t].Away?
    case Take(t) => s.pcs[t].Waiting? && forall u | 0 <= u < |s.pcs| :: !Has(s.pcs[u], s.pcs[t].lock)
    case Release(t) => s.pcs[t].Holding? || s.pcs[t].Leaving?
    case Forget(t) => s.pcs[t].Holding?
  }

  function Next(s: Locks, step: Step): Locks
    requires Enabled(s, step)
  {
    match step
    case Find(t) =>
      var lock := if s.entry.Some? then s.entry.value else s.made;
      Locks(Some(lock), if s.entry.Some? then s.made else s.made + 1, s.pcs[t := Waiting(lock)])
    case Take(t) => s.(pcs := s.pcs[t := Holding(s.pcs[t].lock)])
    case Release(t) => s.(pcs := s.pcs[t := Away])
    case Forget(t) => s.(entry := None, pcs := s.pcs[t := Leaving(s.pcs[t].lock)])
  }

  /** At most one thread is inside its critical section. */
  ghost predicate Exclusive(s: Locks) {
    forall t, u | 0 <= t < |s.pcs| && 0 <= u < |s.pcs| && s.pcs[t].Holding? && s.pcs[u].Holding? :: t == u
  }

  /** Whoever waits or works does so with the mutex in the map, which one thread has at a time. */
  ghost predicate LockInv(s: Locks) {
    && (s.entry.Some? ==> s.entry.value < s.made)
    && (forall t | 0 <= t < |s.pcs| :: !s.pcs[t].Away? ==> s.pcs[t].lock < s.made)
    && (forall t | 0 <= t < |s.pcs| :: s.pcs[t].Waiting? || s.pcs[t].Holding? ==> s.entry == Some(s.pcs[t].lock))
    && (forall t | 0 <= t < |s.pcs| :: s.pcs[t].Leaving? ==> s.entry != Some(s.pcs[t].lock))
    && Exclusive(s)
  }

  /** The one step that can break the protocol: forgetting the mutex while others wait for it. */
  predicate Strands(s: Locks, step: Step) {
    step.Forget? && exists u | 0 <= u < |s.pcs| :: s.pcs[u].Waiting?
  }

  lemma StepKeepsInvIff(s: Locks, step: Step)
    requires LockInv(s) && Enabled(s, step)
    ensures LockInv(Next(s, step)) <==> !Strands(s, step)
  {
    var next := Next(s, step);
    if Strands(s, step) {
      var u :| 0 <= u < |s.pcs| && s.pcs[u].Waiting?;
      assert next.pcs[u].Waiting? && next.entry == None;
    } else if step.Take? {
      forall u | 0 <= u < |s.pcs| ensures !s.pcs[u].Holding? {
        assert s.pcs[u].Holding? ==> Has(s.pcs[u], s.pcs[step.t].lock);
      }
    }
  }

  /** Whoever lets its mutex go is outside, and every thread that waits for that mutex can take it. */
  lemma ReleaseLetsWaitersIn(s: Locks, t: nat, u: nat)
    requires LockInv(s) && Enabled(s, Release(t)) && u < |s.pcs|
    ensures Next(s, Release(t)).pcs[t] == Away
    ensures s.pcs[u] == Waiting(s.pcs[t].lock) ==> Enabled(Next(s, Release(t)), Take(u)) || s.pcs[t].Leaving?
    ensures s.pcs[u] == Waiting(s.pcs[t].lock) && s.pcs[t].Holding? ==> Next(Next(s, Release(t)), Take(u)).pcs[u] == Holding(s.pcs[t].lock)
  {
    var next := Next(s, Release(t));
    if s.pcs[t].Holding? && s.pcs[u] == Waiting(s.pcs[t].lock) {
      forall w | 0 <= w < |next.pcs| ensures !Has(next.pcs[w], s.pcs[t].lock) {
        if w != t { assert s.entry == Some(s.pcs[t].lock); }
      }
    }
  }

  /** A thread that finds the mutex waits for the one in the map, or for a new one that nobody has. */
  lemma FindWaitsForTheEntry(s: Locks, t: nat)
    requires LockInv(s) && Enabled(s, Find(t))
    ensures var next := Next(s, Find(t));
            && next.pcs[t].Waiting? && next.entry == Some(next.pcs[t].lock)
            && (s.entry.Some? ==> next.entry == s.entry)
            && (s.entry.None? ==> forall u | 0 <= u < |s.pcs| :: s.pcs[u].Away? || s.pcs[u].lock != next.pcs[t].lock)
  {
  }

  ghost predicate IsRun(s: Locks, steps: seq<Step>, last: Locks)
    decreases |steps|
  {
    if steps == [] then last == s
    else Enabled(s, steps[0]) && !Strands(s, steps[0]) && IsRun(Next(s, steps[0]), steps[1..], last)
  }

  /** In every run in which no deletion strands a waiter, the write lock excludes. */
  lemma {:induction false} LockExcludes(s: Locks, steps: seq<Step>, last: Locks)
    requires LockInv(s) && IsRun(s, steps, last)
    ensures LockInv(last) && Exclusive(last)
    decreases |steps|
  {
    if steps != [] {
      StepKeepsInvIff(s, steps[0]);
      LockExcludes(Next(s, steps[0]), steps[1..], last);
    }
  }

  /** A stranded waiter always can end up inside together with a later caller: it gets the old
      mutex, the later caller a new one. */
  lemma StrandedWaiterOverlaps(s: Locks, t: nat, u: nat, v: nat) returns (last: Locks)
    requires LockInv(s) && t < |s.pcs| && u < |s.pcs| && v < |s.pcs|
    requires s.pcs[t].Holding? && s.pcs[u].Waiting? && s.pcs[v].Away?
    ensures
      && Enabled(s, Forget(t))
      && var s1 := Next(s, Forget(t));
      Enabled(s1, Release(t))
      && var s2 := Next(s1, Release(t));
      Enabled(s2, Take(u))
      && var s3 := Next(s2, Take(u));
      Enabled(s3, Find(v))
      && var s4 := Next(s3, Find(v));
      Enabled(s4, Take(v)) && last == Next(s4, Take(v))
    ensures u < |last.pcs| && v < |last.pcs| && u != v && last.pcs[u].Holding? && last.pcs[v].Holding?
  {
    var s2 := Next(Next(s, Forget(t)), Release(t));
    NobodyElse(s, t);
    assert forall w | 0 <= w < |s2.pcs| :: !Has(s2.pcs[w], s2.pcs[u].lock);
    var s4 := Next(Next(s2, Take(u)), Find(v));
    assert s4.pcs[v] == Waiting(s.made);
    assert forall w | 0 <= w < |s4.pcs| :: !Has(s4.pcs[w], s.made);
    last := Next(s4, Take(v));
  }

  lemma NobodyElse(s: Locks, t: nat)
    requires LockInv(s) && t < |s.pcs| && s.pcs[t].Holding?
    ensures forall w | 0 <= w < |s.pcs| && w != t :: !Has(s.pcs[w], s.pcs[t].lock)
  {
  }
}
