/** The two-lock gate of a database handle: `View` and `Update` against the closers `Close`,
    cache eviction and `DeleteDatabase`, interleaved lock operation by lock operation. */
module HandleGate {
  import opened ByteOrder

  /** A Go `sync.RWMutex`: a writer that has announced itself keeps new readers out. */
  datatype Lock = Lock(held: set<nat>, writer: Option<nat>, pending: set<nat>)
  {
    predicate Readable() { writer.None? && pending == {} }
    predicate Writable() { writer.None? && held == {} }
  }

  /** Where a thread is. The first row is `View`/`Update`, the second a closer, the third `getDB`
      touching or refusing a cached handle, the fourth the eviction scan reading `lastUsed`. */
  datatype Pc =
    | Calling | Inside | Admitted | Gated | Running | Returned | Refused
    | ToClose | WaitsMu | HasMu | Marked | Unlocked | WaitsGate | HasGate | Shut | Closed
    | ToTouch | WaitsTouch | HasTouch | Touched | NotFound
    | ToPeek | Peeking | Peeked

  datatype Handle = Handle(active: bool, open: bool, mu: Lock, gate: Lock, pcs: seq<Pc>)

  predicate Starting(pc: Pc) { pc.Calling? || pc.ToClose? || pc.ToTouch? || pc.ToPeek? }

  predicate Done(pc: Pc) {
    pc.Returned? || pc.Refused? || pc.Closed? || pc.Touched? || pc.NotFound? || pc.Peeked?
  }

  /** What a thread at `pc` holds of, or is doing to, a lock. */
  datatype Role = Apart | Reads | Awaits | Writes

  function MuRole(pc: Pc): Role {
    match pc
    case Inside | Admitted | Gated | Peeking => Reads
    case WaitsMu | WaitsTouch => Awaits
    case HasMu | Marked | HasTouch => Writes
    case _ => Apart
  }

  function GateRole(pc: Pc): Role {
    match pc
    case Gated | Running => Reads
    case WaitsGate => Awaits
    case HasGate | Shut => Writes
    case _ => Apart
  }

  /** A thread's next program counter, were its next lock operation not to block. */
  function Successor(pc: Pc, active: bool): Pc {
    match pc
    case Calling => Inside
    case Inside => if active then Admitted else Refused
    case Admitted => Gated
    case Gated => Running
    case Running => Returned
    case ToClose => WaitsMu
    case WaitsMu => HasMu
    case HasMu => Marked
    case Marked => Unlocked
    case Unlocked => WaitsGate
    case WaitsGate => HasGate
    case HasGate => Shut
    case Shut => Closed
    case ToTouch => WaitsTouch
    case WaitsTouch => HasTouch
    case HasTouch => if active then Touched else NotFound
    case ToPeek => Peeking
    case Peeking => Peeked
    case _ => pc
  }

  /** The lock after thread `t` goes from one role to another, or `None` if it has to wait:
      RLock, RUnlock, the two halves of Lock, and Unlock. */
  function Operate(l: Lock, t: nat, was: Role, now: Role): Option<Lock> {
    if was == now then Some(l)
    else if now == Reads then (if l.Readable() then Some(l.(held := l.held + {t})) else None)
    else if was == Reads then Some(l.(held := l.held - {t}))
    else if now == Awaits then Some(l.(pending := l.pending + {t}))
    else if now == Writes then (if l.Writable() then Some(l.(pending := l.pending - {t}, writer := Some(t))) else None)
    else Some(l.(writer := None))
  }

  /** The next atomic action of thread `t`, or `None` while it is blocked or has finished. A
      closer sets the state while it holds the state lock, and closes the database while it holds
      the gate. */
  function Advance(h: Handle, t: nat): Option<Handle>
    requires t < |h.pcs|
  {
    var pc := h.pcs[t];
    var next := Successor(pc, h.active);
    var mu, gate := Operate(h.mu, t, MuRole(pc), MuRole(next)), Operate(h.gate, t, GateRole(pc), GateRole(next));
    if Done(pc) || mu.None? || gate.None? then None
    else Some(Handle(h.active && !pc.HasMu?, h.open && !pc.HasGate?, mu.value, gate.value, h.pcs[t := next]))
  }

  // ---------------------------------------------------------------- the invariant

  /** A lock records exactly the threads whose program counters say they hold or await it, and a
      writer holds it alone. */
  ghost predicate Matches(l: Lock, pcs: seq<Pc>, role: Pc -> Role) {
    && (forall t | t in l.held :: t < |pcs|) && (forall t | t in l.pending :: t < |pcs|)
    && (l.writer.Some? ==> l.writer.value < |pcs| && role(pcs[l.writer.value]) == Writes && l.held == {})
    && (forall t | 0 <= t < |pcs| ::
          && (t in l.held <==> role(pcs[t]) == Reads)
          && (t in l.pending <==> role(pcs[t]) == Awaits)
          && (role(pcs[t]) == Writes ==> l.writer == Some(t)))
  }

  /** The role changes a program counter can make with one lock. */
  predicate Orderly(was: Role, now: Role) {
    was == now || now == Apart || (was == Apart && now == Reads) || (was == Apart && now == Awaits) || (was == Awaits && now == Writes)
  }

  lemma OperateKeepsMatch(l: Lock, pcs: seq<Pc>, t: nat, pc: Pc, role: Pc -> Role)
    requires Matches(l, pcs, role) && t < |pcs| && Orderly(role(pcs[t]), role(pc))
    requires role(pcs[t]) == Awaits ==> role(pc) != Apart
    requires Operate(l, t, role(pcs[t]), role(pc)).Some?
    ensures Matches(Operate(l, t, role(pcs[t]), role(pc)).value, pcs[t := pc], role)
  {
  }

  lemma SuccessorIsOrderly(pc: Pc, active: bool)
    ensures Orderly(MuRole(pc), MuRole(Successor(pc, active))) && Orderly(GateRole(pc), GateRole(Successor(pc, active)))
    ensures MuRole(pc) == Awaits ==> MuRole(Successor(pc, active)) == Writes
    ensures GateRole(pc) == Awaits ==> GateRole(Successor(pc, active)) == Writes
  {
  }

  /** Past the point where a closer has marked the handle. */
  predicate PastMark(pc: Pc) { pc.Marked? || pc.Unlocked? || pc.WaitsGate? || pc.HasGate? || pc.Shut? || pc.Closed? }

  /** Past the check of the handle's state, callback not finished. */
  predicate PastCheck(pc: Pc) { pc.Admitted? || pc.Gated? || pc.Running? }

  predicate PastShut(pc: Pc) { pc.Shut? || pc.Closed? }

  predicate Closer(pc: Pc) { pc.ToClose? || pc.WaitsMu? || pc.HasMu? || PastMark(pc) }

  lemma SuccessorMovesOn(pc: Pc, active: bool)
    ensures var next := Successor(pc, active);
            && (PastMark(next) <==> PastMark(pc) || pc.HasMu?)
            && (PastShut(next) <==> PastShut(pc) || pc.HasGate?)
            && (next.Admitted? && !pc.Admitted? ==> active)
            && (next.Gated? && !pc.Gated? ==> pc.Admitted?)
            && (next.Running? && !pc.Running? ==> pc.Gated?)
            && (Closer(pc) ==> Closer(next))
            && (!Done(pc) ==> Left(next) < Left(pc))
  {
  }

  ghost predicate GateInv(h: Handle) {
    && Matches(h.mu, h.pcs, MuRole) && Matches(h.gate, h.pcs, GateRole)
    && (h.active ==> h.open)
    && (h.active <==> forall t | 0 <= t < |h.pcs| :: !PastMark(h.pcs[t]))
    && (h.open <==> forall t | 0 <= t < |h.pcs| :: !PastShut(h.pcs[t]))
    && (forall t | 0 <= t < |h.pcs| :: (h.pcs[t].Admitted? || h.pcs[t].Gated? ==> h.active) && (h.pcs[t].Running? ==> h.open))
  }

  /** Nobody past the check while a closer holds the state lock, no callback while one holds the gate. */
  lemma ClosersExclude(h: Handle, t: nat, u: nat)
    requires GateInv(h) && t < |h.pcs| && u < |h.pcs|
    ensures h.pcs[t].HasMu? ==> !h.pcs[u].Admitted? && !h.pcs[u].Gated?
    ensures h.pcs[t].HasGate? ==> !PastCheck(h.pcs[u])
  {
    assert MuRole(h.pcs[u]) == Reads ==> u in h.mu.held;
    assert GateRole(h.pcs[u]) == Reads ==> u in h.gate.held;
    assert PastMark(h.pcs[t]) ==> !h.active;
  }

  lemma AdvanceKeepsInv(h: Handle, t: nat)
    requires GateInv(h) && t < |h.pcs| && Advance(h, t).Some?
    ensures GateInv(Advance(h, t).value)
    ensures |Advance(h, t).value.pcs| == |h.pcs|
  {
    var pc := h.pcs[t];
    var pc' := Successor(pc, h.active);
    SuccessorIsOrderly(pc, h.active);
    OperateKeepsMatch(h.mu, h.pcs, t, pc', MuRole);
    OperateKeepsMatch(h.gate, h.pcs, t, pc', GateRole);
    SuccessorMovesOn(pc, h.active);
    forall u | 0 <= u < |h.pcs|
      ensures pc.HasMu? ==> !h.pcs[u].Admitted? && !h.pcs[u].Gated?
      ensures pc.HasGate? ==> !PastCheck(h.pcs[u])
    {
      ClosersExclude(h, t, u);
    }
    FlagsKeepInv(h, t, Advance(h, t).value);
  }

  lemma FlagsKeepInv(h: Handle, t: nat, next: Handle)
    requires GateInv(h) && t < |h.pcs| == |next.pcs| && next.pcs == h.pcs[t := next.pcs[t]]
    requires Matches(next.mu, next.pcs, MuRole) && Matches(next.gate, next.pcs, GateRole)
    requires next.active == (h.active && !h.pcs[t].HasMu?) && next.open == (h.open && !h.pcs[t].HasGate?)
    requires PastMark(next.pcs[t]) <==> PastMark(h.pcs[t]) || h.pcs[t].HasMu?
    requires PastShut(next.pcs[t]) <==> PastShut(h.pcs[t]) || h.pcs[t].HasGate?
    requires next.pcs[t].Admitted? && !h.pcs[t].Admitted? ==> h.active
    requires next.pcs[t].Gated? && !h.pcs[t].Gated? ==> h.pcs[t].Admitted?
    requires next.pcs[t].Running? && !h.pcs[t].Running? ==> h.pcs[t].Gated?
    requires h.pcs[t].HasMu? ==> forall u | 0 <= u < |h.pcs| :: !h.pcs[u].Admitted? && !h.pcs[u].Gated?
    requires h.pcs[t].HasGate? ==> forall u | 0 <= u < |h.pcs| :: !PastCheck(h.pcs[u])
    ensures GateInv(next)
  {
    var pc := h.pcs[t];
    if h.pcs[t].HasMu? || PastMark(h.pcs[t]) {
      assert PastMark(next.pcs[t]);
    } else if !h.active {
      var u :| 0 <= u < |h.pcs| && PastMark(h.pcs[u]);
      assert PastMark(next.pcs[u]);
    }
    if h.pcs[t].HasGate? {
      assert PastShut(next.pcs[t]);
    } else if !h.open {
      var u :| 0 <= u < |h.pcs| && PastShut(h.pcs[u]);
      assert PastShut(next.pcs[u]);
    }
  }

  // ---------------------------------------------------------------- runs

  /** A fresh handle, as `getDB` puts it into the cache, and threads about to start. */
  ghost predicate Fresh(h: Handle) {
    && h.active && h.open && h.mu == Lock({}, None, {}) && h.gate == Lock({}, None, {})
    && forall t | 0 <= t < |h.pcs| :: Starting(h.pcs[t])
  }

  /** `last` is reached from `h` by letting the threads of `schedule` act in turn. */
  ghost predicate Reaches(h: Handle, schedule: seq<nat>, last: Handle)
    decreases |schedule|
  {
    if schedule == [] then last == h
    else
      var t := schedule[0];
      t < |h.pcs| && Advance(h, t).Some? && Reaches(Advance(h, t).value, schedule[1..], last)
  }

  lemma {:induction false} RunKeepsInv(h: Handle, schedule: seq<nat>, last: Handle)
    requires GateInv(h) && Reaches(h, schedule, last)
    ensures GateInv(last) && |last.pcs| == |h.pcs|
    decreases |schedule|
  {
    if schedule != [] {
      AdvanceKeepsInv(h, schedule[0]);
      RunKeepsInv(Advance(h, schedule[0]).value, schedule[1..], last);
    }
  }

  lemma FreshIsSafe(h: Handle)
    requires Fresh(h)
    ensures GateInv(h)
  {
  }

  /** In every interleaving of views, updates, evictions, `Close` and `DeleteDatabase`, a running
      callback has an open database; and a closer holding the gate excludes every callback, those
      already admitted included. */
  lemma NoCallbackAfterClose(h: Handle, schedule: seq<nat>, last: Handle, t: nat, c: nat)
    requires Fresh(h) && Reaches(h, schedule, last)
    requires t < |last.pcs| && c < |last.pcs|
    ensures PastCheck(last.pcs[t]) ==> last.open
    ensures last.pcs[c].HasGate? || PastShut(last.pcs[c]) ==> !PastCheck(last.pcs[t])
  {
    FreshIsSafe(h);
    RunKeepsInv(h, schedule, last);
    ClosersExclude(last, c, t);
  }

  // ---------------------------------------------------------------- liveness

  lemma NobodyAwaitsTheGateWhileActive(h: Handle)
    requires GateInv(h) && h.active
    ensures h.gate.Readable()
  {
    assert h.gate.writer.Some? ==> PastMark(h.pcs[h.gate.writer.value]);
    assert forall w | w in h.gate.pending :: w < |h.pcs| && PastMark(h.pcs[w]);
  }

  /** A caller that saw the handle active gets the gate at once: it never waits for a closer
      while it holds the state lock the closer needs. */
  lemma AdmittedNeverWaits(h: Handle, t: nat)
    requires GateInv(h) && t < |h.pcs| && h.pcs[t].Admitted?
    ensures Advance(h, t).Some?
  {
    NobodyAwaitsTheGateWhileActive(h);
  }

  /** A thread that holds a lock, or the gate it was waiting for, is never blocked. */
  lemma HolderCanAct(h: Handle, t: nat)
    requires GateInv(h) && t < |h.pcs|
    requires MuRole(h.pcs[t]) == Reads || MuRole(h.pcs[t]) == Writes || GateRole(h.pcs[t]) == Reads || GateRole(h.pcs[t]) == Writes
    ensures Advance(h, t).Some?
  {
    if h.pcs[t].Admitted? { AdmittedNeverWaits(h, t); }
  }

  lemma WaiterCanAct(h: Handle, t: nat)
    requires t < |h.pcs| && !Done(h.pcs[t])
    requires MuRole(h.pcs[t]) == Apart ==> h.mu.pending == {}
    requires h.mu.writer.None? && h.mu.held == {} && h.gate.writer.None? && h.gate.held == {}
    requires !h.pcs[t].Admitted?
    ensures Advance(h, t).Some?
  {
  }

  /** No deadlock: while some thread has not finished, some thread can act. */
  lemma SomeoneCanAct(h: Handle, t: nat) returns (mover: nat)
    requires GateInv(h) && t < |h.pcs| && !Done(h.pcs[t])
    ensures mover < |h.pcs| && Advance(h, mover).Some?
  {
    if m :| m in h.mu.held + h.gate.held {
      mover := m;
      HolderCanAct(h, m);
    } else if h.mu.writer.Some? || h.gate.writer.Some? {
      mover := if h.mu.writer.Some? then h.mu.writer.value else h.gate.writer.value;
      HolderCanAct(h, mover);
    } else {
      mover := t;
      if m :| m in h.mu.pending { mover := m; }
      FreeLocksBlockNobody(h, mover);
    }
  }

  lemma FreeLocksBlockNobody(h: Handle, t: nat)
    requires GateInv(h) && t < |h.pcs| && !Done(h.pcs[t])
    requires h.mu.held + h.gate.held == {} && h.mu.writer.None? && h.gate.writer.None?
    requires h.mu.pending == {} || t in h.mu.pending
    ensures Advance(h, t).Some?
  {
    assert MuRole(h.pcs[t]) == Reads ==> t in h.mu.held;
    WaiterCanAct(h, t);
  }

  lemma OnlyRunningReturns(h: Handle, u: nat, t: nat)
    requires u < |h.pcs| && t < |h.pcs| && Advance(h, u).Some? && !h.pcs[t].Returned? && !(u == t && h.pcs[t].Running?)
    ensures !Advance(h, u).value.pcs[t].Returned?
  {
  }

  lemma ReachesFromBefore(h: Handle, schedule: seq<nat>, i: nat, mid: Handle)
    requires i < |schedule| && schedule[0] < |h.pcs| && Advance(h, schedule[0]).Some?
    requires Reaches(Advance(h, schedule[0]).value, schedule[1..][..i], mid)
    ensures Reaches(h, schedule[..i + 1], mid)
  {
    assert schedule[..i + 1][1..] == schedule[1..][..i];
  }

  /** Whoever gets on with a handle found it active, and whoever is turned away found it closing. */
  lemma StateDecides(h: Handle, t: nat)
    requires t < |h.pcs| && Advance(h, t).Some?
    ensures var pc, next := h.pcs[t], Advance(h, t).value.pcs[t];
            && (next.Touched? || next.Admitted? ==> h.active)
            && (next.NotFound? || next.Refused? ==> !h.active)
  {
  }

  /** A call that returned has run its callback, on an open database. */
  lemma {:induction false} ReturnedHasRun(h: Handle, schedule: seq<nat>, last: Handle, t: nat) returns (k: nat, mid: Handle)
    requires GateInv(h) && Reaches(h, schedule, last) && t < |h.pcs| && t < |last.pcs|
    requires !h.pcs[t].Returned? && last.pcs[t].Returned?
    ensures k < |schedule| && Reaches(h, schedule[..k], mid) && schedule[k] == t
    ensures t < |mid.pcs| && mid.pcs[t].Running? && mid.open
    decreases |schedule|
  {
    var next := Advance(h, schedule[0]).value;
    AdvanceKeepsInv(h, schedule[0]);
    if schedule[0] == t && h.pcs[t].Running? {
      k, mid := 0, h;
    } else {
      OnlyRunningReturns(h, schedule[0], t);
      var i;
      i, mid := ReturnedHasRun(next, schedule[1..], last, t);
      k := i + 1;
      ReachesFromBefore(h, schedule, i, mid);
    }
  }

  /** On its way through a call. */
  predicate InCall(pc: Pc) { pc.Calling? || pc.Inside? || PastCheck(pc) || pc.Returned? }

  lemma {:induction false} NobodyRefused(h: Handle, schedule: seq<nat>, last: Handle, t: nat)
    requires Reaches(h, schedule, last) && t < |h.pcs| && InCall(h.pcs[t])
    requires h.active && forall u | 0 <= u < |h.pcs| :: !Closer(h.pcs[u])
    ensures t < |last.pcs| && InCall(last.pcs[t])
    decreases |schedule|
  {
    if schedule != [] {
      NobodyRefused(Advance(h, schedule[0]).value, schedule[1..], last, t);
    }
  }

  /** While nobody closes the handle every call runs its callback and returns: none is refused. */
  lemma UndisturbedCallsReturn(h: Handle, schedule: seq<nat>, last: Handle, t: nat)
    requires Fresh(h) && Reaches(h, schedule, last) && t < |h.pcs| && h.pcs[t].Calling?
    requires forall u | 0 <= u < |h.pcs| :: !Closer(h.pcs[u])
    requires forall u | 0 <= u < |last.pcs| :: Advance(last, u).None?
    ensures t < |last.pcs| && last.pcs[t].Returned?
  {
    NobodyRefused(h, schedule, last, t);
    EveryMaximalRunFinishes(h, schedule, last);
  }

  /** Actions left for a thread. */
  function Left(pc: Pc): nat {
    match pc
    case Calling => 5 case Inside => 4 case Admitted => 3 case Gated => 2 case Running => 1
    case ToClose => 8 case WaitsMu => 7 case HasMu => 6 case Marked => 5
    case Unlocked => 4 case WaitsGate => 3 case HasGate => 2 case Shut => 1
    case ToTouch => 3 case WaitsTouch => 2 case HasTouch => 1
    case ToPeek => 2 case Peeking => 1
    case _ => 0
  }

  function Work(pcs: seq<Pc>): nat {
    if pcs == [] then 0 else Left(pcs[0]) + Work(pcs[1..])
  }

  lemma {:induction false} WorkDrops(pcs: seq<Pc>, t: nat, pc: Pc)
    requires t < |pcs| && Left(pc) < Left(pcs[t])
    ensures Work(pcs[t := pc]) < Work(pcs)
  {
    if t == 0 {
      assert pcs[0 := pc][1..] == pcs[1..];
    } else {
      assert pcs[t := pc][1..] == pcs[1..][t - 1 := pc];
      WorkDrops(pcs[1..], t - 1, pc);
    }
  }

  lemma AdvanceSpendsWork(h: Handle, t: nat)
    requires t < |h.pcs| && Advance(h, t).Some?
    ensures Work(Advance(h, t).value.pcs) < Work(h.pcs)
  {
    SuccessorMovesOn(h.pcs[t], h.active);
    WorkDrops(h.pcs, t, Successor(h.pcs[t], h.active));
  }

  lemma {:induction false} RunsAreBounded(h: Handle, schedule: seq<nat>, last: Handle)
    requires Reaches(h, schedule, last)
    ensures |schedule| + Work(last.pcs) <= Work(h.pcs)
    decreases |schedule|
  {
    if schedule != [] {
      var next := Advance(h, schedule[0]).value;
      AdvanceSpendsWork(h, schedule[0]);
      RunsAreBounded(next, schedule[1..], last);
    }
  }

  /** Every run is finite, and one that cannot be continued has finished every thread. */
  lemma EveryMaximalRunFinishes(h: Handle, schedule: seq<nat>, last: Handle)
    requires Fresh(h) && Reaches(h, schedule, last)
    requires forall t | 0 <= t < |last.pcs| :: Advance(last, t).None?
    ensures |schedule| <= Work(h.pcs)
    ensures forall t | 0 <= t < |last.pcs| :: Done(last.pcs[t])
    ensures last.open <==> forall t | 0 <= t < |last.pcs| :: !last.pcs[t].Closed?
  {
    RunsAreBounded(h, schedule, last);
    FreshIsSafe(h);
    RunKeepsInv(h, schedule, last);
    StuckIsFinished(last);
  }

  lemma StuckIsFinished(last: Handle)
    requires GateInv(last) && forall t | 0 <= t < |last.pcs| :: Advance(last, t).None?
    ensures forall t | 0 <= t < |last.pcs| :: Done(last.pcs[t])
    ensures last.open <==> forall t | 0 <= t < |last.pcs| :: !last.pcs[t].Closed?
  {
    forall t | 0 <= t < |last.pcs| ensures Done(last.pcs[t]) {
      if !Done(last.pcs[t]) { var mover := SomeoneCanAct(last, t); }
    }
  }

  lemma {:induction false} CloserStaysCloser(h: Handle, schedule: seq<nat>, last: Handle, c: nat)
    requires Reaches(h, schedule, last) && c < |h.pcs| && Closer(h.pcs[c])
    ensures c < |last.pcs| && Closer(last.pcs[c])
    decreases |schedule|
  {
    if schedule != [] {
      SuccessorMovesOn(h.pcs[schedule[0]], h.active);
      CloserStaysCloser(Advance(h, schedule[0]).value, schedule[1..], last, c);
    }
  }

  /** With a closer among the threads, a run that cannot be continued has closed the database. */
  lemma CloserEventuallyCloses(h: Handle, schedule: seq<nat>, last: Handle, c: nat)
    requires Fresh(h) && Reaches(h, schedule, last) && c < |h.pcs| && h.pcs[c].ToClose?
    requires forall t | 0 <= t < |last.pcs| :: Advance(last, t).None?
    ensures c < |last.pcs| && last.pcs[c].Closed? && !last.open
  {
    CloserStaysCloser(h, schedule, last, c);
    EveryMaximalRunFinishes(h, schedule, last);
  }
}
