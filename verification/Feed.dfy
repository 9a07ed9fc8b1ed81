/** One subscriber of one collection: subscribe, replay from the resume point, then follow the
    live channel, while writers commit and publish. Sequence numbers stand for events. */
module Feed {
  import opened ByteOrder
  import opened Documents
  import opened Keys
  import opened Storage
  import opened EventLog

  const CHANNEL_CAPACITY: nat := 100

  /** What travels through the channel: a committed event, or a presence or publish message. */
  datatype Message = Durable(n: nat) | Transient

  /** Which committed events concern the collection: event i+1 does iff ours[i]. */
  type Ours = seq<bool>

  predicate IsOurs(ours: Ours, n: nat) {
    0 < n <= |ours| && ours[n - 1]
  }

  /** The collection's event numbers above `lo`, up to `hi`. */
  function Wanted(ours: Ours, lo: nat, hi: nat): seq<nat>
    requires hi <= |ours|
    decreases hi
  {
    if hi <= lo then []
    else Wanted(ours, lo, hi - 1) + if IsOurs(ours, hi) then [hi] else []
  }

  predicate Ascends(s: seq<nat>) {
    forall i, j | 0 <= i < j < |s| :: s[i] < s[j]
  }

  /** The list holds exactly the collection's numbers in the range. */
  ghost predicate Holds(ours: Ours, lo: nat, hi: nat, s: seq<nat>) {
    && (forall n | n in s :: lo < n <= hi && IsOurs(ours, n))
    && (forall n | lo < n <= hi && IsOurs(ours, n) :: n in s)
  }

  lemma {:induction false} WantedMembers(ours: Ours, lo: nat, hi: nat, w: seq<nat>)
    requires hi <= |ours| && w == Wanted(ours, lo, hi)
    ensures Holds(ours, lo, hi, w) && Ascends(w)
    decreases hi
  {
    if lo < hi {
      var front := Wanted(ours, lo, hi - 1);
      WantedMembers(ours, lo, hi - 1, front);
      forall i | 0 <= i < |front| ensures front[i] < hi { assert front[i] in front; }
    }
  }

  lemma {:induction false} WantedSplits(ours: Ours, lo: nat, mid: nat, hi: nat)
    requires lo <= mid <= hi <= |ours|
    ensures Wanted(ours, lo, hi) == Wanted(ours, lo, mid) + Wanted(ours, mid, hi)
    decreases hi
  {
    if mid < hi { WantedSplits(ours, lo, mid, hi - 1); }
  }

  lemma {:induction false} WantedGrows(ours: Ours, more: Ours, lo: nat, hi: nat)
    requires hi <= |ours|
    ensures Wanted(ours + more, lo, hi) == Wanted(ours, lo, hi)
    decreases hi
  {
    if lo < hi { WantedGrows(ours, more, lo, hi - 1); }
  }

  lemma {:induction false} WantedNothing(ours: Ours, lo: nat, hi: nat)
    requires hi <= |ours| && forall n | lo < n <= hi :: !IsOurs(ours, n)
    ensures Wanted(ours, lo, hi) == []
    decreases hi
  {
    if lo < hi { WantedNothing(ours, lo, hi - 1); }
  }

  lemma WantedUpToFirst(ours: Ours, lo: nat, n: nat)
    requires lo < n <= |ours| && IsOurs(ours, n)
    requires forall k: nat | lo < k <= n - 1 :: !IsOurs(ours, k)
    ensures Wanted(ours, lo, n) == [n]
  {
    WantedNothing(ours, lo, n - 1);
  }

  /** The first wanted number splits the range at itself. */
  lemma WantedFirst(ours: Ours, lo: nat, hi: nat, w: seq<nat>)
    requires hi <= |ours| && w == Wanted(ours, lo, hi) && w != []
    ensures lo < w[0] <= hi && IsOurs(ours, w[0])
    ensures Wanted(ours, lo, w[0]) == [w[0]] && Wanted(ours, w[0], hi) == w[1..]
  {
    WantedMembers(ours, lo, hi, w);
    var n := w[0];
    assert n in w;
    assert forall k | k in w :: k >= n;
    assert forall k: nat | lo < k <= n - 1 :: IsOurs(ours, k) ==> k in w;
    WantedUpToFirst(ours, lo, n);
    WantedSplits(ours, lo, n, hi);
  }

  // ---------------------------------------------------------------- the client loop

  /** What the handler has written: every durable number, and the one it would resume from. */
  datatype Client = Client(lastSent: nat, sent: seq<nat>)

  function Max(a: nat, b: nat): nat { if a > b then a else b }

  function Written(c: Client, n: nat): Client {
    Client(Max(c.lastSent, n), c.sent + [n])
  }

  /** One message from the channel: duplicates of what was replayed are skipped. */
  function Received(c: Client, m: Message): Client {
    match m
    case Transient => c
    case Durable(n) => if n > 0 && n <= c.lastSent then c else Written(c, n)
  }

  class Handler {
    var lastSent: nat
    var sent: seq<nat>

    constructor (lastEventId: nat)
      ensures State() == Client(lastEventId, [])
    {
      lastSent, sent := lastEventId, [];
    }

    function State(): Client
      reads this
    {
      Client(lastSent, sent)
    }

    method Write(n: nat)
      modifies this
      ensures State() == Written(old(State()), n)
    {
      sent := sent + [n];
      if n > lastSent { lastSent := n; }
    }

    method OnMessage(m: Message)
      modifies this
      ensures State() == Received(old(State()), m)
    {
      match m
      case Transient =>
      case Durable(n) =>
        if n > 0 && n <= lastSent { return; }
        Write(n);
    }

    /** The replay loop: whatever the log hands over is written, without a look at `lastSent`. */
    method Replay(events: seq<nat>)
      modifies this
      ensures State() == WrittenAll(old(State()), events)
    {
      for i := 0 to |events|
        invariant State() == WrittenAll(old(State()), events[..i])
      {
        assert events[..i + 1][..i] == events[..i];
        Write(events[i]);
      }
      assert events[..|events|] == events;
    }
  }

  function WrittenAll(c: Client, events: seq<nat>): Client {
    if events == [] then c else Written(WrittenAll(c, events[..|events| - 1]), events[|events| - 1])
  }

  /** Everything replayed is sent; the resume point moves to the last of it when that lies above. */
  lemma {:induction false} WrittenAllSendsAll(c: Client, events: seq<nat>)
    requires Ascends(events)
    ensures WrittenAll(c, events).sent == c.sent + events
    ensures WrittenAll(c, events).lastSent == if events == [] then c.lastSent else Max(c.lastSent, events[|events| - 1])
  {
    if events != [] {
      var front := events[..|events| - 1];
      WrittenAllSendsAll(c, front);
      assert c.sent + events == c.sent + front + [events[|events| - 1]];
    }
  }

  // ---------------------------------------------------------------- numbering starts again

  function ReceivedAll(c: Client, numbers: seq<nat>): Client {
    if numbers == [] then c
    else Received(ReceivedAll(c, numbers[..|numbers| - 1]), Durable(numbers[|numbers| - 1]))
  }

  /** A client that stays subscribed while its database is deleted and created again, where numbers
      start from 1: of the new events it is sent exactly those above the last number of the old. */
  lemma {:induction false} RenumberedEventsAreSkipped(c: Client, ours: Ours, hi: nat)
    requires hi <= |ours|
    ensures var next := ReceivedAll(c, Wanted(ours, 0, hi));
            next.sent == c.sent + Wanted(ours, c.lastSent, hi) && c.lastSent <= next.lastSent <= Max(c.lastSent, hi)
    decreases hi
  {
    if hi > 0 {
      RenumberedEventsAreSkipped(c, ours, hi - 1);
      var front := Wanted(ours, 0, hi - 1);
      if IsOurs(ours, hi) {
        assert (front + [hi])[..|front|] == front;
      } else {
        assert Wanted(ours, 0, hi) == front;
      }
    }
  }

  lemma NothingWantedBelow(ours: Ours, lo: nat)
    ensures Wanted(ours, lo, |ours|) == Wanted(ours, 0, |ours|)
       <==> forall n | 0 < n <= lo && n <= |ours| :: !IsOurs(ours, n)
  {
    var all, late := Wanted(ours, 0, |ours|), Wanted(ours, lo, |ours|);
    WantedMembers(ours, 0, |ours|, all);
    WantedMembers(ours, lo, |ours|, late);
    if all == late {
      assert forall n | 0 < n <= lo && n <= |ours| && IsOurs(ours, n) :: n in all;
    } else {
      AscendingUniqueUnless(all, late);
    }
  }

  lemma AscendingUniqueUnless(a: seq<nat>, b: seq<nat>)
    requires Ascends(a) && Ascends(b) && a != b
    ensures exists n :: n in a <==> n !in b
  {
    if forall n :: n in a <==> n in b { AscendingUnique(a, b); }
  }

  /** So it misses none if and only if none of them has a number it was sent before. */
  lemma RenumberedFeedIsCompleteIff(c: Client, ours: Ours)
    ensures ReceivedAll(c, Wanted(ours, 0, |ours|)).sent == c.sent + Wanted(ours, 0, |ours|)
       <==> forall n | 0 < n <= c.lastSent && n <= |ours| :: !IsOurs(ours, n)
  {
    RenumberedEventsAreSkipped(c, ours, |ours|);
    NothingWantedBelow(ours, c.lastSent);
    SameTail(c.sent, Wanted(ours, c.lastSent, |ours|), Wanted(ours, 0, |ours|));
  }

  lemma SameTail(front: seq<nat>, a: seq<nat>, b: seq<nat>)
    ensures front + a == front + b <==> a == b
  {
    if front + a == front + b {
      assert a == (front + a)[|front|..] && b == (front + b)[|front|..];
    }
  }

  // ---------------------------------------------------------------- the seek

  /** A Last-Event-ID: any 64-bit number a client cares to send. */
  type LastEventId = n: nat | n < UINT64

  /** The number whose successor wraps to zero. */
  const LAST_ID: LastEventId := UINT64 - 1

  /** Where the replay starts: `after + 1`, in 64 bits. */
  function SeekKey(after: LastEventId): nat {
    (after + 1) % UINT64
  }

  /** The seek passes over exactly the numbers up to here. */
  function Below(after: LastEventId): nat {
    if SeekKey(after) == 0 then 0 else SeekKey(after) - 1
  }

  lemma BelowIsAfterUnlessItWraps(after: LastEventId, k: nat)
    ensures Below(after) == if after == LAST_ID then 0 else after
    ensures k > 0 ==> (k >= SeekKey(after) <==> k > Below(after))
  {
    if after == LAST_ID {
      assert UINT64 % UINT64 == 0;
    } else {
      assert (after + 1) % UINT64 == after + 1;
    }
  }

  /** The log entry is one the replay is after. */
  predicate Sought(log: map<nat, Event>, c: Collection, after: LastEventId, k: nat) {
    k in log && k >= SeekKey(after) && log[k].collection == c
  }

  /** What a replay that has dealt with all keys but `rest` may hold: the collection's events in
      key order, none skipped. */
  ghost predicate ReplaySoFar(log: map<nat, Event>, c: Collection, after: LastEventId, rest: set<nat>, events: seq<Event>, keys: seq<nat>) {
    && |events| == |keys| && Ascends(keys)
    && (forall i | 0 <= i < |keys| :: Sought(log, c, after, keys[i]) && events[i] == log[keys[i]])
    && (forall k | Sought(log, c, after, k) && k !in rest :: k in keys)
    && (forall i, k | 0 <= i < |keys| && k in rest :: keys[i] < k)
  }

  lemma ReplayStep(log: map<nat, Event>, c: Collection, after: LastEventId, rest: set<nat>, events: seq<Event>, keys: seq<nat>, k: nat)
    requires ReplaySoFar(log, c, after, rest, events, keys)
    requires k in rest && k in log && k >= SeekKey(after) && forall j | j in rest :: k <= j
    ensures log[k].collection == c ==> ReplaySoFar(log, c, after, rest - {k}, events + [log[k]], keys + [k])
    ensures log[k].collection != c ==> ReplaySoFar(log, c, after, rest - {k}, events, keys)
  {
  }

  /** `ReplayEvents`: seek to the resume point's successor, keep the collection's events in key order, stop at
      the limit. What it leaves out comes after everything it returns, and a bounded log is never
      cut short by the full limit. */
  method ReplayEvents(log: map<nat, Event>, c: Collection, after: LastEventId, limit: nat) returns (events: seq<Event>)
    ensures var most := if limit == 0 || limit > MAX_RETAINED_EVENTS then MAX_RETAINED_EVENTS else limit;
            && |events| <= most
            && (exists rest, keys :: ReplaySoFar(log, c, after, rest, events, keys) && (|events| < most ==> rest == {}))
    ensures |log| <= MAX_RETAINED_EVENTS && (limit == 0 || limit >= MAX_RETAINED_EVENTS) ==>
              exists keys :: ReplaySoFar(log, c, after, {}, events, keys)
  {
    var most := if limit == 0 || limit > MAX_RETAINED_EVENTS then MAX_RETAINED_EVENTS else limit;
    events := [];
    ghost var keys: seq<nat> := [];
    var rest := set k | k in log && k >= SeekKey(after);
    SubsetCardinality(rest, log.Keys);
    while rest != {} && |events| < most
      invariant |events| <= most && |events| + |rest| <= |log|
      invariant forall k | k in rest :: k in log && k >= SeekKey(after)
      invariant ReplaySoFar(log, c, after, rest, events, keys)
      decreases |rest|
    {
      var k := FirstKey(rest);
      ReplayStep(log, c, after, rest, events, keys, k);
      rest := rest - {k};
      if log[k].collection == c {
        events := events + [log[k]];
        keys := keys + [k];
      }
    }
  }

  function OursIn(history: seq<Event>, c: Collection): Ours {
    seq(|history|, i requires 0 <= i < |history| => history[i].collection == c)
  }

  lemma {:induction false} AscendingUnique(a: seq<nat>, b: seq<nat>)
    requires Ascends(a) && Ascends(b) && forall n :: n in a <==> n in b
    ensures a == b
  {
    if a == [] {
      NonemptyHasMember(b);
    } else {
      assert a[|a| - 1] in a && b != [];
      var x, y := a[|a| - 1], b[|b| - 1];
      assert x in b && y in a;
      var fa, fb := a[..|a| - 1], b[..|b| - 1];
      assert a == fa + [x] && b == fb + [y];
      assert x == y;
      forall n ensures n in fa <==> n in fb {
        assert n in fa ==> n < x && n in b;
        assert n in fb ==> n < y && n in a;
      }
      AscendingUnique(fa, fb);
    }
  }

  /** Over a log kept by the engine, a replay with the full limit delivers exactly the collection's
      retained events from the seek key on, in order. */
  lemma ReplayIsSeek(v: Events, c: Collection, after: LastEventId, keys: seq<nat>)
    requires LogInv(v) && Ascends(keys)
    requires forall k :: k in keys <==> Sought(v.log, c, after, k)
    ensures keys == Wanted(OursIn(v.history, c), Max(Below(after), Horizon(v.last)), v.last)
  {
    var ours := OursIn(v.history, c);
    var lo := Max(Below(after), Horizon(v.last));
    var w := Wanted(ours, lo, v.last);
    WantedMembers(ours, lo, v.last, w);
    forall k: nat ensures k in keys <==> k in w {
      BelowIsAfterUnlessItWraps(after, k);
      if k in v.log { assert v.log[k] == v.history[k - 1]; }
    }
    AscendingUnique(keys, w);
  }

  /** They are the retained events above the resume point if and only if the seek does not wrap, or
      the log retains nothing of the collection. */
  lemma ReplayIsWanted(v: Events, c: Collection, after: LastEventId, keys: seq<nat>)
    requires LogInv(v) && Ascends(keys) && v.last < UINT64
    requires forall k :: k in keys <==> Sought(v.log, c, after, k)
    ensures keys == Wanted(OursIn(v.history, c), Max(after, Horizon(v.last)), v.last)
       <==> after != LAST_ID || NoneRetained(OursIn(v.history, c))
  {
    ReplayIsSeek(v, c, after, keys);
    BelowIsAfterUnlessItWraps(after, 0);
    if after == LAST_ID { WrappedSeek(OursIn(v.history, c)); }
  }

  /** The log keeps no event of the collection. */
  predicate NoneRetained(ours: Ours) {
    forall n | Horizon(|ours|) < n <= |ours| :: !IsOurs(ours, n)
  }

  /** From key zero on the seek meets everything retained; above the last number there is nothing. */
  lemma WrappedSeek(ours: Ours)
    requires |ours| < UINT64
    ensures Wanted(ours, Max(LAST_ID, Horizon(|ours|)), |ours|) == []
    ensures Wanted(ours, Horizon(|ours|), |ours|) == [] <==> NoneRetained(ours)
  {
    var w := Wanted(ours, Horizon(|ours|), |ours|);
    WantedMembers(ours, Horizon(|ours|), |ours|, w);
    if NoneRetained(ours) {
      WantedNothing(ours, Horizon(|ours|), |ours|);
    } else {
      var n :| Horizon(|ours|) < n <= |ours| && IsOurs(ours, n);
      assert n in w;
    }
  }

  // ---------------------------------------------------------------- the protocol

  datatype Phase = Idle | Subscribed | Replaying | Live | Ended

  datatype Net = Net(
    ours: Ours,               // every committed event so far
    published: nat,           // the highest of the collection's numbers offered so far
    registered: bool,         // the subscription is in the subscriber table
    closed: bool,             // its channel is closed
    slow: bool,               // some publisher found the channel full and will close it
    dropped: bool,            // that publisher was offering a durable event
    channel: seq<Message>,
    phase: Phase,
    resume: LastEventId,      // Last-Event-ID, 0 for none
    pending: seq<nat>,        // replayed but not yet written
    client: Client,
    base: nat,                // `published` when the subscription was made
    snapshot: nat,            // how many events the replay saw
    reached: nat,             // the last number put into the channel's range
    taken: nat,               // the last number read from the channel's range
    closing: bool             // a publisher has unregistered it and is about to close its channel
  )

  datatype Act =
    | Commit(more: Ours)
    | Offer(m: Message)       // one publisher's non-blocking send, under the read lock
    | Unregister              // that publisher unsubscribes the slow subscriber ...
    | Close                   // ... and then closes its channel
    | Subscribe
    | Replay
    | SendReplayed
    | GoLive
    | Receive
    | Disconnect

  /** What the replay returns: the retained events of the collection from the seek key on. */
  function Replayed(s: Net): seq<nat> {
    if s.resume == 0 then [] else Wanted(s.ours, Max(Below(s.resume), Horizon(|s.ours|)), |s.ours|)
  }

  predicate CanAct(s: Net, a: Act) {
    match a
    case Commit(more) => |s.ours| + |more| < UINT64
    case Offer(m) => m.Durable? ==> 0 < m.n <= |s.ours|
    case Unregister => s.slow
    case Close => s.closing
    case Subscribe => s.phase == Idle
    case Replay => s.phase == Subscribed
    case SendReplayed => s.phase == Replaying && s.pending != []
    case GoLive => s.phase == Replaying && s.pending == []
    case Receive => s.phase == Live && s.channel != []
    case Disconnect => s.phase != Ended
  }

  /** The next of the collection's events to be offered. */
  predicate IsNext(s: Net, n: nat) {
    s.published < n && IsOurs(s.ours, n) && forall k | s.published < k < n :: !IsOurs(s.ours, k)
  }

  /** Publishers that hold the database's write lock while they publish: the collection's events are
      offered once, in commit order, and a publisher that failed to send closes the subscriber
      before the next. */
  predicate InOrder(s: Net, a: Act) {
    a.Offer? && a.m.Durable? && IsOurs(s.ours, a.m.n) ==> IsNext(s, a.m.n) && !s.dropped
  }

  /** One `PublishEvent`, as far as it concerns the subscription: an event of another collection
      does not, and without a registered subscription nobody hears it. */
  function Offered(s: Net, m: Message): Net {
    if m.Durable? && !IsOurs(s.ours, m.n) then s
    else
      var s1 := if m.Durable? then s.(published := Max(s.published, m.n)) else s;
      if !s.registered then s1
      else if |s.channel| < CHANNEL_CAPACITY then
        var s2 := s1.(channel := s.channel + [m]);
        if m.Durable? && !s.dropped then s2.(reached := Max(s.reached, m.n)) else s2
      else s1.(slow := true, dropped := s.dropped || m.Durable?)
  }

  function After(s: Net, a: Act): Net
    requires CanAct(s, a)
  {
    match a
    case Commit(more) => s.(ours := s.ours + more)
    case Offer(m) => Offered(s, m)
    case Unregister => s.(registered := false, slow := false, dropped := false, closing := true)
    case Close => s.(closed := true)
    case Subscribe => s.(phase := Subscribed, registered := true, base := s.published, reached := s.published, taken := s.published)
    case Replay => s.(phase := Replaying, pending := Replayed(s), snapshot := |s.ours|)
    case SendReplayed => s.(pending := s.pending[1..], client := Written(s.client, s.pending[0]))
    case GoLive => s.(phase := Live)
    case Receive =>
      var m := s.channel[0];
      s.(channel := s.channel[1..], client := Received(s.client, m), taken := if m.Durable? then Max(s.taken, m.n) else s.taken)
    case Disconnect => s.(phase := Ended, registered := false, channel := [])
  }

  function Start(resume: LastEventId): Net {
    Net([], 0, false, false, false, false, [], Idle, resume, [], Client(resume, []), 0, 0, 0, 0, false)
  }
}
