/** The webhook outbox: leased, at-least-once delivery with retries. */
module Outbox {
  import opened ByteOrder
  import opened Documents
  import opened Storage
  import opened EventLog
  import opened Bolt

  type Records = map<nat, Delivery>

  const LEASE_SECONDS: int := 60
  const MAX_ATTEMPTS: nat := 3

  predicate Eligible(d: Delivery, now: int) {
    && !(d.status == Pending && d.nextAttemptAt > now)
    && !(d.status == Delivering && now - d.updatedAt < LEASE_SECONDS)
    && d.status != Failed
  }

  /** The record a claim takes: the oldest one that is neither waiting, leased nor failed. */
  predicate FirstEligible(o: Records, now: int, k: nat) {
    k in o && Eligible(o[k], now) && forall j | j in o && j < k :: !Eligible(o[j], now)
  }

  function Claimed(o: Records, now: int, k: nat): Records
    requires k in o
  {
    o[k := o[k].(status := Delivering, updatedAt := now)]
  }

  /** `failWebhookDelivery` on an existing record. */
  function MarkedFailed(o: Records, now: int, k: nat): Records
    requires k in o
  {
    var attempts := o[k].attempts + 1;
    o[k := if attempts >= MAX_ATTEMPTS
           then o[k].(attempts := attempts, updatedAt := now, status := Failed, nextAttemptAt := 0)
           else o[k].(attempts := attempts, updatedAt := now, status := Pending, nextAttemptAt := now + attempts * attempts)]
  }

  /** `RetryWebhookDelivery` on an existing record. */
  function Rescheduled(o: Records, now: int, k: nat): Records
    requires k in o
  {
    o[k := o[k].(status := Pending, nextAttemptAt := 0, updatedAt := now)]
  }

  // ---------------------------------------------------------------- the transactions

  method ClaimWebhookDelivery(tx: Tx, now: int) returns (claimed: Option<nat>)
    modifies tx`events
    ensures claimed.Some? ==> FirstEligible(old(tx.events.outbox), now, claimed.value)
                              && tx.events == old(tx.events).(outbox := Claimed(old(tx.events.outbox), now, claimed.value))
    ensures claimed.None? ==> tx.events == old(tx.events) && forall k | k in tx.events.outbox :: !Eligible(tx.events.outbox[k], now)
  {
    var rest := tx.events.outbox.Keys;
    while rest != {}
      invariant rest <= tx.events.outbox.Keys
      invariant forall j, k | j in tx.events.outbox && j !in rest && k in rest :: j < k
      invariant forall j | j in tx.events.outbox && j !in rest :: !Eligible(tx.events.outbox[j], now)
      decreases |rest|
    {
      var k := FirstKey(rest);
      var delivery := tx.events.outbox[k];
      if delivery.status == Pending && delivery.nextAttemptAt > now {
      } else if delivery.status == Delivering && now - delivery.updatedAt < LEASE_SECONDS {
      } else if delivery.status == Failed {
      } else {
        tx.events := tx.events.(outbox := Claimed(tx.events.outbox, now, k));
        return Some(k);
      }
      rest := rest - {k};
    }
    return None;
  }

  method FailWebhookDelivery(tx: Tx, k: nat, now: int) returns (error: Option<Error>)
    modifies tx`events
    ensures error.None? <==> k in old(tx.events.outbox)
    ensures tx.events == if k in old(tx.events.outbox) then old(tx.events).(outbox := MarkedFailed(old(tx.events.outbox), now, k)) else old(tx.events)
  {
    if k !in tx.events.outbox { return Some(NotFound); }
    var delivery := tx.events.outbox[k];
    delivery := delivery.(attempts := delivery.attempts + 1, updatedAt := now);
    if delivery.attempts >= MAX_ATTEMPTS {
      delivery := delivery.(status := Failed, nextAttemptAt := 0);
    } else {
      delivery := delivery.(status := Pending, nextAttemptAt := now + delivery.attempts * delivery.attempts);
    }
    tx.events := tx.events.(outbox := tx.events.outbox[k := delivery]);
    return None;
  }

  method DeleteWebhookDelivery(tx: Tx, k: nat)
    modifies tx`events
    ensures tx.events == old(tx.events).(outbox := old(tx.events.outbox) - {k})
  {
    tx.events := tx.events.(outbox := tx.events.outbox - {k});
  }

  method RetryWebhookDelivery(tx: Tx, k: nat, now: int) returns (error: Option<Error>)
    modifies tx`events
    ensures error.None? <==> k in old(tx.events.outbox)
    ensures tx.events == if k in old(tx.events.outbox) then old(tx.events).(outbox := Rescheduled(old(tx.events.outbox), now, k)) else old(tx.events)
  {
    if k !in tx.events.outbox { return Some(NotFound); }
    var delivery := tx.events.outbox[k].(status := Pending, nextAttemptAt := 0);
    delivery := delivery.(updatedAt := now);
    tx.events := tx.events.(outbox := tx.events.outbox[k := delivery]);
    return None;
  }

  // ---------------------------------------------------------------- all runs

  /** The workers: the events whose claimed records are being delivered, and those delivered whose
      records wait to be deleted. `succeeded` and `retried` remember the past. */
  datatype Courier = Courier(
    inFlight: multiset<Event>,
    toDelete: multiset<Event>,
    succeeded: set<Event>,
    retried: set<nat>
  )

  const NoCourier: Courier := Courier(multiset{}, multiset{}, {}, {})

  datatype Workers = Workers(events: Events, courier: Courier)

  /** What writers, workers and operators do. A claim hands the worker a copy of the record; it
      delivers, fails and deletes by that copy. */
  datatype Move =
    | Commit(next: Events)
    | Claim(k: nat, at: int)
    | Deliver(event: Event)
    | Drop(event: Event)
    | Fail(event: Event, at: int)
    | Crash(event: Event)
    | Retry(k: nat, at: int)

  ghost predicate Possible(w: Workers, m: Move) {
    match m
    case Commit(next) => Extends(w.events, next) && LogInv(next)
    case Claim(k, at) => FirstEligible(w.events.outbox, at, k)
    case Deliver(e) => e in w.courier.inFlight
    case Drop(e) => e in w.courier.toDelete
    case Fail(e, _) => e in w.courier.inFlight
    case Crash(e) => e in w.courier.inFlight || e in w.courier.toDelete
    case Retry(_, _) => true
  }

  function WithRecords(w: Workers, o: Records, c: Courier): Workers {
    Workers(w.events.(outbox := o), c)
  }

  ghost function Apply(w: Workers, m: Move): Workers
    requires Possible(w, m)
  {
    var o, c := w.events.outbox, w.courier;
    match m
    case Commit(next) => w.(events := next)
    case Claim(k, at) => WithRecords(w, Claimed(o, at, k), c.(inFlight := c.inFlight + multiset{o[k].event}))
    case Deliver(e) =>
      w.(courier := c.(inFlight := c.inFlight - multiset{e}, toDelete := c.toDelete + multiset{e}, succeeded := c.succeeded + {e}))
    case Drop(e) => WithRecords(w, o - {e.seqno}, c.(toDelete := c.toDelete - multiset{e}))
    case Fail(e, at) =>
      WithRecords(w, if e.seqno in o then MarkedFailed(o, at, e.seqno) else o, c.(inFlight := c.inFlight - multiset{e}))
    case Crash(e) => w.(courier := c.(inFlight := c.inFlight - multiset{e}, toDelete := c.toDelete - multiset{e}))
    case Retry(k, at) => if k in o then WithRecords(w, Rescheduled(o, at, k), c.(retried := c.retried + {k})) else w
  }

  // ---------------------------------------------------------------- when a record can be claimed

  /** A claim at the time takes this record, or an older one that can be claimed. */
  ghost predicate Claimable(o: Records, k: nat, at: int) {
    exists j: nat :: j <= k && FirstEligible(o, at, j)
  }

  /** Of the records only this one changed, and not its event. */
  ghost predicate OnlyRecord(o: Records, o': Records, k: nat) {
    && o'.Keys == o.Keys && k in o && o'[k].event == o[k].event
    && forall j | j in o && j != k :: o'[j] == o[j]
  }

  /** While the record is due, the next claim takes it or an older one. */
  lemma DueIsClaimable(o: Records, k: nat, at: int)
    requires k in o && Eligible(o[k], at)
    ensures Claimable(o, k, at)
  {
    var due := set j | j in o && j <= k && Eligible(o[j], at);
    assert k in due;
    var first := FirstKey(due);
    assert first in due;
    forall j | j in o && j < first ensures !Eligible(o[j], at) { assert Eligible(o[j], at) ==> j in due; }
    assert FirstEligible(o, at, first);
  }

  /** After a retry the record is pending with its event and attempts, and due from then on whatever
      it was before; no other record changes. */
  lemma RetryMakesDue(w: Workers, k: nat, at: int, later: int)
    requires k in w.events.outbox && later >= 0
    ensures var o, o' := w.events.outbox, Apply(w, Retry(k, at)).events.outbox;
            && OnlyRecord(o, o', k) && o'[k].status == Pending && o'[k].attempts == o[k].attempts
            && Eligible(o'[k], later) && Claimable(o', k, later)
  {
    DueIsClaimable(Apply(w, Retry(k, at)).events.outbox, k, later);
  }

  /** A failed delivery counts one attempt. After the first it is due again one second later, after the
      second four seconds later, and not a second earlier; after the third never. */
  lemma FailureDelays(w: Workers, e: Event, at: int, later: int)
    requires e in w.courier.inFlight && e.seqno in w.events.outbox
    ensures var o, o' := w.events.outbox, Apply(w, Fail(e, at)).events.outbox;
            && OnlyRecord(o, o', e.seqno) && o'[e.seqno].attempts == o[e.seqno].attempts + 1
            && (Eligible(o'[e.seqno], later) <==>
                  || (o[e.seqno].attempts == 0 && later >= at + 1)
                  || (o[e.seqno].attempts == 1 && later >= at + 4))
            && (o'[e.seqno].status == Failed <==> o[e.seqno].attempts >= 2)
  {
  }

  /** A claim leases the record for sixty seconds: not due before, due from then on. */
  lemma ClaimLeases(w: Workers, k: nat, at: int, later: int)
    requires FirstEligible(w.events.outbox, at, k)
    ensures var o, o' := w.events.outbox, Apply(w, Claim(k, at)).events.outbox;
            && OnlyRecord(o, o', k) && o'[k].attempts == o[k].attempts
            && (Eligible(o'[k], later) <==> later - at >= 60)
  {
  }

  /** A delivery that succeeded is remembered and its record is to be deleted; the deletion takes that
      record and no other. */
  lemma SuccessRemoves(w: Workers, e: Event)
    requires e in w.courier.inFlight
    ensures var w' := Apply(w, Deliver(e));
            && w'.events == w.events && e in w'.courier.succeeded && Possible(w', Drop(e))
            && Apply(w', Drop(e)).events.outbox == w.events.outbox - {e.seqno}
            && Apply(w', Drop(e)).courier.succeeded == w'.courier.succeeded
  {
  }

  /** The record of a new event is due at once. */
  lemma FreshIsDue(e: Event, time: Time, later: int)
    requires later >= 0
    ensures Eligible(Delivery(e, Pending, 0, 0, time), later)
  {
  }

  // ---------------------------------------------------------------- histories

  const NoWork: Workers := Workers(Events(0, map[], map[], []), NoCourier)

  ghost predicate Leads(w: Workers, m: Move, next: Workers) {
    Possible(w, m) && next == Apply(w, m)
  }

  ghost predicate IsHistory(states: seq<Workers>, moves: seq<Move>) {
    && |states| == |moves| + 1 && states[0] == NoWork
    && forall i | 0 <= i < |moves| :: Leads(states[i], moves[i], states[i + 1])
  }

  /** The event is the committed one of its number. */
  predicate IsCommitted(v: Events, e: Event) {
    1 <= e.seqno <= |v.history| && v.history[e.seqno - 1] == e
  }

  /** The committed event is still in the outbox, itself and not another under its number, or a
      delivery of it succeeded. */
  predicate KeptOrDelivered(w: Workers, e: Event) {
    || (e.seqno in w.events.outbox && w.events.outbox[e.seqno].event == e)
    || e in w.courier.succeeded
  }

  ghost predicate WorkersInv(w: Workers) {
    && LogInv(w.events)
    && (forall e | e in w.events.history :: KeptOrDelivered(w, e))
    && (forall e | e in w.courier.inFlight :: IsCommitted(w.events, e))
    && (forall e | e in w.courier.succeeded :: IsCommitted(w.events, e))
    && (forall e | e in w.courier.toDelete :: e in w.courier.succeeded)
    && (forall k | k in w.courier.retried :: k <= w.events.last)
    && (forall k | k in w.events.outbox && k !in w.courier.retried ::
          w.events.outbox[k].status == Failed <==> w.events.outbox[k].attempts >= MAX_ATTEMPTS)
  }

  lemma CommitKeepsInv(w: Workers, next: Events)
    requires WorkersInv(w) && Possible(w, Commit(next))
    ensures WorkersInv(Apply(w, Commit(next)))
  {
    var w' := Apply(w, Commit(next));
    forall e | e in next.history ensures KeptOrDelivered(w', e) {
      var i :| 0 <= i < |next.history| && next.history[i] == e;
      if i < |w.events.history| {
        assert e == w.events.history[i] && e in w.events.history;
        assert KeptOrDelivered(w, e);
      }
    }
    forall e | IsCommitted(w.events, e) ensures IsCommitted(next, e) {}
  }

  lemma DeletionKeepsInv(w: Workers, e: Event)
    requires WorkersInv(w) && Possible(w, Drop(e))
    ensures WorkersInv(Apply(w, Drop(e)))
  {
    var w' := Apply(w, Drop(e));
    forall f | f in w'.events.history ensures KeptOrDelivered(w', f) {
      assert KeptOrDelivered(w, f);
      var i :| 0 <= i < |w.events.history| && w.events.history[i] == f;
      assert f.seqno == e.seqno ==> f == e;
    }
    forall f | IsCommitted(w.events, f) ensures IsCommitted(w'.events, f) {}
  }

  /** The records of a step on one existing record, event untouched. */
  lemma RecordStepKeepsInv(w: Workers, k: nat, d: Delivery, c: Courier)
    requires WorkersInv(w) && k in w.events.outbox && d.event == w.events.outbox[k].event
    requires c.succeeded == w.courier.succeeded && c.toDelete == w.courier.toDelete
    requires forall e | e in c.inFlight :: e in w.courier.inFlight || e == d.event
    requires c.retried == w.courier.retried || c.retried == w.courier.retried + {k}
    requires k !in c.retried ==> (d.status == Failed <==> d.attempts >= MAX_ATTEMPTS)
    ensures WorkersInv(WithRecords(w, w.events.outbox[k := d], c))
  {
    var w' := WithRecords(w, w.events.outbox[k := d], c);
    forall f | f in w'.events.history ensures KeptOrDelivered(w', f) { assert KeptOrDelivered(w, f); }
    forall f | IsCommitted(w.events, f) ensures IsCommitted(w'.events, f) {}
    assert IsCommitted(w.events, d.event);
  }

  lemma CourierStepKeepsInv(w: Workers, c: Courier)
    requires WorkersInv(w)
    requires forall e | e in c.inFlight :: e in w.courier.inFlight
    requires w.courier.succeeded <= c.succeeded && c.retried == w.courier.retried
    requires forall e | e in c.succeeded :: e in w.courier.succeeded || e in w.courier.inFlight
    requires forall e | e in c.toDelete :: e in c.succeeded
    ensures WorkersInv(w.(courier := c))
  {
    var w' := w.(courier := c);
    forall f | f in w'.events.history ensures KeptOrDelivered(w', f) { assert KeptOrDelivered(w, f); }
  }

  lemma ClaimKeepsInv(w: Workers, k: nat, at: int)
    requires WorkersInv(w) && Possible(w, Claim(k, at))
    ensures WorkersInv(Apply(w, Claim(k, at)))
  {
    RecordStepKeepsInv(w, k, Claimed(w.events.outbox, at, k)[k], Apply(w, Claim(k, at)).courier);
  }

  lemma DeliverKeepsInv(w: Workers, e: Event)
    requires WorkersInv(w) && Possible(w, Deliver(e))
    ensures WorkersInv(Apply(w, Deliver(e)))
  {
    CourierStepKeepsInv(w, Apply(w, Deliver(e)).courier);
  }

  lemma CrashKeepsInv(w: Workers, e: Event)
    requires WorkersInv(w) && Possible(w, Crash(e))
    ensures WorkersInv(Apply(w, Crash(e)))
  {
    CourierStepKeepsInv(w, Apply(w, Crash(e)).courier);
  }

  lemma FailKeepsInv(w: Workers, e: Event, at: int)
    requires WorkersInv(w) && Possible(w, Fail(e, at))
    ensures WorkersInv(Apply(w, Fail(e, at)))
  {
    var o, c, k := w.events.outbox, Apply(w, Fail(e, at)).courier, e.seqno;
    if k in o {
      RecordStepKeepsInv(w, k, MarkedFailed(o, at, k)[k], c);
    } else {
      CourierStepKeepsInv(w, c);
    }
  }

  lemma RetryKeepsInv(w: Workers, k: nat, at: int)
    requires WorkersInv(w) && Possible(w, Retry(k, at))
    ensures WorkersInv(Apply(w, Retry(k, at)))
  {
    var o := w.events.outbox;
    if k in o { RecordStepKeepsInv(w, k, Rescheduled(o, at, k)[k], Apply(w, Retry(k, at)).courier); }
  }

  lemma MoveKeepsInv(w: Workers, m: Move)
    requires WorkersInv(w) && Possible(w, m)
    ensures WorkersInv(Apply(w, m))
  {
    match m
    case Commit(next) => CommitKeepsInv(w, next);
    case Claim(k, at) => ClaimKeepsInv(w, k, at);
    case Deliver(e) => DeliverKeepsInv(w, e);
    case Drop(e) => DeletionKeepsInv(w, e);
    case Fail(e, at) => FailKeepsInv(w, e, at);
    case Crash(e) => CrashKeepsInv(w, e);
    case Retry(k, at) => RetryKeepsInv(w, k, at);
  }

  lemma {:induction false} HistoryKeepsInv(states: seq<Workers>, moves: seq<Move>, i: nat)
    requires IsHistory(states, moves) && i < |states|
    ensures WorkersInv(states[i])
  {
    if i > 0 {
      HistoryKeepsInv(states, moves, i - 1);
      MoveKeepsInv(states[i - 1], moves[i - 1]);
    }
  }

  /** At least once: in every run the record under a committed event's number holds exactly that
      event, or that event was delivered; unless an operator retried it, failed means three attempts. */
  lemma CommittedUntilDelivered(states: seq<Workers>, moves: seq<Move>, i: nat, k: nat)
    requires IsHistory(states, moves) && i < |states| && 1 <= k <= states[i].events.last
    ensures var v := states[i].events;
            && k <= |v.history| && v.history[k - 1].seqno == k
            && (k in v.outbox ==> v.outbox[k].event == v.history[k - 1])
            && (k !in v.outbox ==> v.history[k - 1] in states[i].courier.succeeded)
    ensures var o := states[i].events.outbox;
            k in o && k !in states[i].courier.retried ==> (o[k].status == Failed <==> o[k].attempts >= MAX_ATTEMPTS)
  {
    HistoryKeepsInv(states, moves, i);
    assert states[i].events.history[k - 1] in states[i].events.history;
  }

  /** A record that has left the outbox never comes back, whatever late workers or operators do. */
  lemma {:induction false} GoneForGood(states: seq<Workers>, moves: seq<Move>, i: nat, j: nat, k: nat)
    requires IsHistory(states, moves) && i <= j < |states|
    requires k <= states[i].events.last && k !in states[i].events.outbox
    ensures k <= states[j].events.last && k !in states[j].events.outbox
    decreases j - i
  {
    if i < j {
      GoneForGood(states, moves, i, j - 1, k);
      assert Leads(states[j - 1], moves[j - 1], states[j]);
      StaysGone(states[j - 1], moves[j - 1], k);
    }
  }

  lemma StaysGone(w: Workers, m: Move, k: nat)
    requires Possible(w, m) && k <= w.events.last && k !in w.events.outbox
    ensures k <= Apply(w, m).events.last && k !in Apply(w, m).events.outbox
  {
  }

  predicate Releases(m: Move, k: nat) {
    match m
    case Fail(e, _) => e.seqno == k
    case Drop(e) => e.seqno == k
    case Retry(n, _) => n == k
    case _ => false
  }

  ghost predicate LeasedSince(o: Records, k: nat, since: int) {
    k in o && o[k].status == Delivering && o[k].updatedAt >= since
  }

  lemma LeaseStep(w: Workers, m: Move, k: nat, since: int)
    requires Possible(w, m) && LeasedSince(w.events.outbox, k, since) && !Releases(m, k)
    ensures LeasedSince(Apply(w, m).events.outbox, k, since)
  {
  }

  /** While nobody fails, deletes or retries it, a claimed record stays leased since then. */
  lemma {:induction false} StaysLeased(states: seq<Workers>, moves: seq<Move>, i: nat, j: nat, k: nat)
    requires IsHistory(states, moves) && i < j < |states|
    requires moves[i].Claim? && moves[i].k == k
    requires forall m | i < m < j :: !Releases(moves[m], k)
    ensures LeasedSince(states[j].events.outbox, k, moves[i].at)
    decreases j - i
  {
    if i + 1 < j {
      StaysLeased(states, moves, i, j - 1, k);
      assert Leads(states[j - 1], moves[j - 1], states[j]);
      LeaseStep(states[j - 1], moves[j - 1], k, moves[i].at);
    }
  }

  /** Two claims of one record without a failure, deletion or retry between them are at least sixty
      seconds apart, whatever the clock did in between. */
  lemma ClaimsAreALeaseApart(states: seq<Workers>, moves: seq<Move>, i: nat, j: nat, k: nat)
    requires IsHistory(states, moves) && i < j < |moves|
    requires moves[i].Claim? && moves[i].k == k && moves[j].Claim? && moves[j].k == k
    requires forall m | i < m < j :: !Releases(moves[m], k)
    ensures moves[j].at - moves[i].at >= LEASE_SECONDS
  {
    StaysLeased(states, moves, i, j, k);
    assert Leads(states[j], moves[j], states[j + 1]);
  }

  // ---------------------------------------------------------------- draining

  function Left(d: Delivery): nat {
    if d.attempts >= MAX_ATTEMPTS then 0 else MAX_ATTEMPTS - d.attempts
  }

  /** Attempts the outbox has left altogether. */
  function Remaining(o: Records): nat
    decreases |o|
  {
    if o == map[] then 0
    else
      var k := FirstKey(o.Keys);
      Left(o[k]) + Remaining(o - {k})
  }

  lemma {:induction false} RemainingWithout(o: Records, k: nat)
    requires k in o
    ensures Remaining(o) == Left(o[k]) + Remaining(o - {k})
    decreases |o|
  {
    var f := FirstKey(o.Keys);
    if f != k {
      var a, b := o - {f}, o - {k};
      RemainingWithout(a, k);
      assert a - {k} == b - {f};
      assert b != map[] && f in b;
      assert FirstKey(b.Keys) == f;
    }
  }

  lemma RemainingUpdate(o: Records, k: nat, d: Delivery)
    requires k in o
    ensures Remaining(o[k := d]) == Remaining(o) - Left(o[k]) + Left(d)
  {
    RemainingWithout(o, k);
    RemainingWithout(o[k := d], k);
    assert o[k := d] - {k} == o - {k};
  }

  lemma {:induction false} RemainingBound(o: Records)
    ensures Remaining(o) <= MAX_ATTEMPTS * |o|
    decreases |o|
  {
    if o != map[] {
      var k := FirstKey(o.Keys);
      var rest := o - {k};
      assert |o| == |o.Keys| && |rest| == |rest.Keys| && rest.Keys == o.Keys - {k};
      RemainingBound(rest);
    }
  }

  /** Failed is exactly three attempts: holds of every record no operator has retried. */
  ghost predicate Regular(o: Records) {
    forall k | k in o :: o[k].status == Failed <==> o[k].attempts >= MAX_ATTEMPTS
  }

  /** One worker's turns, each a claim and its outcome; no other worker overlaps. */
  datatype Turn = Turn(k: nat, claimedAt: int, ok: bool, resolvedAt: int)

  function AfterTurn(o: Records, t: Turn): Records
    requires FirstEligible(o, t.claimedAt, t.k)
  {
    var leased := Claimed(o, t.claimedAt, t.k);
    if t.ok then leased - {t.k} else MarkedFailed(leased, t.resolvedAt, t.k)
  }

  ghost predicate AreTurns(states: seq<Records>, turns: seq<Turn>) {
    && |states| == |turns| + 1
    && forall i | 0 <= i < |turns| :: FirstEligible(states[i], turns[i].claimedAt, turns[i].k) && states[i + 1] == AfterTurn(states[i], turns[i])
  }

  /** What the world answers in one turn: the clock at the claim, whether every webhook accepted the
      delivery, the clock afterwards. */
  datatype Visit = Visit(claimedAt: int, ok: bool, resolvedAt: int)

  const MAX_TURNS_PER_ROUND: nat := 100

  predicate Visited(t: Turn, v: Visit) {
    t.claimedAt == v.claimedAt && t.ok == v.ok && t.resolvedAt == v.resolvedAt
  }

  /** `processWebhookOutboxForDatabase`, undisturbed: at most a hundred turns, fewer only when
      nothing is left to claim. */
  method ProcessOutbox(tx: Tx, visits: seq<Visit>) returns (turns: seq<Turn>, ghost states: seq<Records>)
    requires |visits| == MAX_TURNS_PER_ROUND
    modifies tx`events
    ensures AreTurns(states, turns) && states[0] == old(tx.events.outbox) && states[|turns|] == tx.events.outbox
    ensures tx.events == old(tx.events).(outbox := tx.events.outbox)
    ensures |turns| <= MAX_TURNS_PER_ROUND && forall i | 0 <= i < |turns| :: Visited(turns[i], visits[i])
    ensures |turns| < MAX_TURNS_PER_ROUND ==>
              forall k | k in tx.events.outbox :: !Eligible(tx.events.outbox[k], visits[|turns|].claimedAt)
  {
    turns, states := [], [tx.events.outbox];
    for i := 0 to MAX_TURNS_PER_ROUND
      invariant |turns| == i && AreTurns(states, turns)
      invariant states[0] == old(tx.events.outbox) && states[i] == tx.events.outbox
      invariant tx.events == old(tx.events).(outbox := tx.events.outbox)
      invariant forall j | 0 <= j < i :: Visited(turns[j], visits[j])
    {
      var v := visits[i];
      var claimed := ClaimWebhookDelivery(tx, v.claimedAt);
      if claimed.None? { return; }
      var t := Turn(claimed.value, v.claimedAt, v.ok, v.resolvedAt);
      if v.ok {
        DeleteWebhookDelivery(tx, t.k);
      } else {
        var error := FailWebhookDelivery(tx, t.k, v.resolvedAt);
      }
      TurnsExtend(states, turns, t);
      turns, states := turns + [t], states + [tx.events.outbox];
    }
  }

  lemma TurnsExtend(states: seq<Records>, turns: seq<Turn>, t: Turn)
    requires AreTurns(states, turns) && FirstEligible(states[|turns|], t.claimedAt, t.k)
    ensures AreTurns(states + [AfterTurn(states[|turns|], t)], turns + [t])
  {
  }

  lemma TurnUsesAnAttempt(o: Records, t: Turn)
    requires Regular(o) && FirstEligible(o, t.claimedAt, t.k)
    ensures Regular(AfterTurn(o, t)) && Remaining(AfterTurn(o, t)) < Remaining(o)
  {
    var leased := Claimed(o, t.claimedAt, t.k);
    RemainingUpdate(o, t.k, leased[t.k]);
    if t.ok {
      RemainingWithout(leased, t.k);
    } else {
      RemainingUpdate(leased, t.k, MarkedFailed(leased, t.resolvedAt, t.k)[t.k]);
    }
  }

  /** With no new events, no retries and no overlap, at most three claims per record can be resolved. */
  lemma {:induction false} DrainsWithinThreeTurnsEach(states: seq<Records>, turns: seq<Turn>)
    requires AreTurns(states, turns) && Regular(states[0])
    ensures Regular(states[|turns|])
    ensures |turns| + Remaining(states[|turns|]) <= Remaining(states[0]) <= MAX_ATTEMPTS * |states[0]|
    decreases |turns|
  {
    RemainingBound(states[0]);
    if turns != [] {
      var n := |turns| - 1;
      assert AreTurns(states[..n + 1], turns[..n]);
      DrainsWithinThreeTurnsEach(states[..n + 1], turns[..n]);
      TurnUsesAnAttempt(states[n], turns[n]);
    }
  }

  /** When nothing can be claimed although every delay and lease has run out, only failed records remain. */
  lemma OnlyFailedRemain(o: Records, now: int)
    requires forall k | k in o :: !Eligible(o[k], now)
    requires forall k | k in o :: o[k].nextAttemptAt <= now && o[k].updatedAt + LEASE_SECONDS <= now
    ensures forall k | k in o :: o[k].status == Failed
  {
  }

  /** Delays and leases of all records have run out. */
  predicate Settled(o: Records, now: int) {
    forall k | k in o :: o[k].nextAttemptAt <= now && o[k].updatedAt + LEASE_SECONDS <= now
  }

  lemma SomeClaimable(o: Records, now: int, k: nat)
    requires k in o && Eligible(o[k], now)
    ensures exists first :: FirstEligible(o, now, first)
  {
    var claimable := set j | j in o && Eligible(o[j], now);
    assert k in claimable;
    var first := FirstKey(claimable);
    forall j | j in o && j < first ensures !Eligible(o[j], now) { assert Eligible(o[j], now) ==> j in claimable; }
    assert FirstEligible(o, now, first);
  }

  /** One run of turns: it is never longer than three times the records it began with; and whenever
      the delays and leases of what is left have run out, no further turn can be taken if and only if
      only failed records remain, which is so at the latest when that length is reached. */
  lemma DrainsUntilOnlyFailedRemain(states: seq<Records>, turns: seq<Turn>, now: int)
    requires AreTurns(states, turns) && Regular(states[0]) && Settled(states[|turns|], now)
    ensures |turns| <= MAX_ATTEMPTS * |states[0]|
    ensures (forall k :: !FirstEligible(states[|turns|], now, k))
       <==> forall k | k in states[|turns|] :: states[|turns|][k].status == Failed
    ensures |turns| == MAX_ATTEMPTS * |states[0]| ==> forall k | k in states[|turns|] :: states[|turns|][k].status == Failed
  {
    DrainsWithinThreeTurnsEach(states, turns);
    var last := states[|turns|];
    if k :| k in last && last[k].status != Failed {
      RemainingWithout(last, k);
      SomeClaimable(last, now, k);
    }
  }
}
