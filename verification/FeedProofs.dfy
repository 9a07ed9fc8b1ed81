/** What every subscriber sees, for every interleaving of writers, publishers and the handler. */
module FeedProofs {
  import opened ByteOrder
  import opened Documents
  import opened Keys
  import opened Storage
  import opened EventLog
  import opened Feed

  ghost predicate IsFeedRun(resume: LastEventId, states: seq<Net>, acts: seq<Act>) {
    && |states| == |acts| + 1 && states[0] == Start(resume)
    && forall i | 0 <= i < |acts| :: CanAct(states[i], acts[i]) && states[i + 1] == After(states[i], acts[i])
  }

  // ---------------------------------------------------------------- order, for any publishers

  ghost predicate OrderInv(s: Net) {
    && |s.ours| < UINT64
    && Ascends(s.client.sent)
    && (forall n | n in s.client.sent :: n <= s.client.lastSent)
    && s.client.lastSent >= s.resume
    && (forall m | m in s.channel :: m.Durable? ==> 0 < m.n <= |s.ours|)
    && (s.phase == Replaying ==> Ascends(s.client.sent + s.pending))
    && (s.phase == Idle || s.phase == Subscribed ==> s.client == Client(s.resume, []))
  }

  lemma WrittenKeepsOrder(c: Client, n: nat)
    requires Ascends(c.sent) && (forall k | k in c.sent :: k <= c.lastSent) && n > c.lastSent
    ensures Ascends(Written(c, n).sent) && (forall k | k in Written(c, n).sent :: k <= Written(c, n).lastSent)
    ensures Written(c, n).lastSent == n
  {
    forall i | 0 <= i < |c.sent| ensures c.sent[i] < n { assert c.sent[i] in c.sent; }
  }

  lemma AscendsPrefix(a: seq<nat>, b: seq<nat>)
    requires Ascends(a + b)
    ensures Ascends(a)
  {
    assert forall i | 0 <= i < |a| :: (a + b)[i] == a[i];
  }

  lemma SendKeepsOrder(s: Net)
    requires OrderInv(s) && CanAct(s, SendReplayed)
    ensures OrderInv(After(s, SendReplayed))
  {
    var n, rest := s.pending[0], s.pending[1..];
    assert s.client.sent + s.pending == (s.client.sent + [n]) + rest;
    AscendsPrefix(s.client.sent + [n], rest);
  }

  lemma ReceiveKeepsOrder(s: Net)
    requires OrderInv(s) && CanAct(s, Receive)
    ensures OrderInv(After(s, Receive))
  {
    var m := s.channel[0];
    assert m in s.channel;
    if m.Durable? && m.n > s.client.lastSent { WrittenKeepsOrder(s.client, m.n); }
  }

  lemma ActKeepsOrder(s: Net, a: Act)
    requires OrderInv(s) && CanAct(s, a)
    ensures OrderInv(After(s, a))
  {
    match a
    case Replay => ReplayKeepsOrder(s);
    case SendReplayed => SendKeepsOrder(s);
    case Receive => ReceiveKeepsOrder(s);
    case Offer(m) => OfferKeepsOrder(s, m);
    case _ =>
  }

  lemma OfferKeepsOrder(s: Net, m: Message)
    requires OrderInv(s) && CanAct(s, Offer(m))
    ensures OrderInv(Offered(s, m))
  {
  }

  lemma ReplayKeepsOrder(s: Net)
    requires OrderInv(s) && CanAct(s, Replay)
    ensures OrderInv(After(s, Replay))
  {
    var lo := Max(Below(s.resume), Horizon(|s.ours|));
    WantedMembers(s.ours, lo, |s.ours|, Wanted(s.ours, lo, |s.ours|));
    assert s.client.sent + Replayed(s) == Replayed(s);
  }

  /** In every run, with any publishers in any order, the sequence numbers sent to a client are
      strictly increasing. */
  lemma {:induction false} SentStrictlyIncreases(resume: LastEventId, states: seq<Net>, acts: seq<Act>, i: nat)
    requires IsFeedRun(resume, states, acts) && i < |states|
    ensures Ascends(states[i].client.sent) && OrderInv(states[i])
  {
    if i > 0 {
      SentStrictlyIncreases(resume, states, acts, i - 1);
      ActKeepsOrder(states[i - 1], acts[i - 1]);
    }
  }

  // ---------------------------------------------------------------- completeness, for lock-holding publishers

  function Durables(channel: seq<Message>): seq<nat> {
    if channel == [] then []
    else (if channel[0].Durable? then [channel[0].n] else []) + Durables(channel[1..])
  }

  lemma {:induction false} DurablesAppend(channel: seq<Message>, m: Message)
    ensures Durables(channel + [m]) == Durables(channel) + if m.Durable? then [m.n] else []
  {
    if channel != [] {
      assert (channel + [m])[1..] == channel[1..] + [m];
      DurablesAppend(channel[1..], m);
    }
  }

  /** The number after which the client is owed events. */
  function Begin(s: Net): nat {
    if s.resume > 0 then s.resume else s.base
  }

  /** Up to here the client has been served. */
  function Cover(s: Net): nat {
    if s.resume > 0 then Max(s.resume, Max(s.snapshot, s.taken)) else s.taken
  }

  function UpTo(ours: Ours, lo: nat, hi: nat): seq<nat> {
    Wanted(ours, lo, if hi <= |ours| then hi else |ours|)
  }

  ghost predicate ChannelInv(s: Net) {
    && s.published <= |s.ours|
    && (s.dropped ==> s.slow)
    && (s.phase == Idle ==> !s.registered && s.channel == [] && s.client == Client(s.resume, []))
    && (s.phase != Idle && s.phase != Ended ==>
          && s.base <= s.taken <= s.reached <= s.published
          && (s.registered && !s.dropped ==> s.reached == s.published)
          && Durables(s.channel) == Wanted(s.ours, s.taken, s.reached))
    && (s.phase == Ended ==> !s.registered)
  }

  ghost predicate ServedInv(s: Net) {
    match s.phase
    case Idle => s.client == Client(s.resume, [])
    case Subscribed => s.client == Client(s.resume, []) && s.taken == s.base
    case Replaying =>
      && s.taken == s.base <= s.snapshot <= |s.ours|
      && (s.resume == 0 ==> s.pending == [] && s.client == Client(0, []))
      && (s.resume > 0 ==> s.client.sent + s.pending == Wanted(s.ours, s.resume, s.snapshot)
                           && s.client.lastSent == if s.client.sent == [] then s.resume else s.client.sent[|s.client.sent| - 1])
    case Live =>
      && s.base <= s.snapshot <= |s.ours|
      && s.client.sent == UpTo(s.ours, Begin(s), Cover(s))
      && s.client.lastSent == if s.client.sent == [] then s.resume else s.client.sent[|s.client.sent| - 1]
    case Ended => s.client.sent <= Wanted(s.ours, Begin(s), |s.ours|)
  }

  /** The replay hands over what is owed: no event of the collection above the resume point has
      been trimmed; and for the one resume point whose successor wraps to zero, the log retains no
      event of the collection that the client would be sent again. */
  predicate CleanReplay(s: Net) {
    s.resume > 0 ==>
      if s.resume == LAST_ID then NoneRetained(s.ours)
      else forall n | s.resume < n <= Horizon(|s.ours|) :: !IsOurs(s.ours, n)
  }

  /** The replayed list is what the client is owed exactly then. */
  lemma ReplayCompleteIffClean(s: Net)
    requires s.resume > 0 && |s.ours| < UINT64
    ensures Replayed(s) == Wanted(s.ours, s.resume, |s.ours|) <==> CleanReplay(s)
  {
    var h, n := Horizon(|s.ours|), |s.ours|;
    BelowIsAfterUnlessItWraps(s.resume, 0);
    if s.resume == LAST_ID {
      WrappedSeek(s.ours);
    } else if s.resume < h {
      WantedSplits(s.ours, s.resume, h, n);
      var early := Wanted(s.ours, s.resume, h);
      WantedMembers(s.ours, s.resume, h, early);
      if CleanReplay(s) {
        WantedNothing(s.ours, s.resume, h);
      } else {
        var k :| s.resume < k <= h && IsOurs(s.ours, k);
        assert k in early;
      }
    }
  }

  lemma UpToGrows(ours: Ours, more: Ours, lo: nat, hi: nat)
    ensures hi <= |ours| || lo >= hi ==> UpTo(ours + more, lo, hi) == UpTo(ours, lo, hi)
    ensures Wanted(ours, lo, |ours|) <= Wanted(ours + more, lo, |ours + more|)
  {
    if hi <= |ours| { WantedGrows(ours, more, lo, hi); }
    WantedGrows(ours, more, lo, |ours|);
    if lo <= |ours| { WantedSplits(ours + more, lo, |ours|, |ours + more|); }
  }

  lemma CommitKeepsFeed(s: Net, more: Ours)
    requires ChannelInv(s) && ServedInv(s) && CanAct(s, Commit(more))
    ensures ChannelInv(After(s, Commit(more))) && ServedInv(After(s, Commit(more)))
  {
    if s.phase != Idle && s.phase != Ended { WantedGrows(s.ours, more, s.taken, s.reached); }
    if s.phase == Replaying { WantedGrows(s.ours, more, s.resume, s.snapshot); }
    UpToGrows(s.ours, more, Begin(s), Cover(s));
    if s.phase == Live { assert Cover(s) <= |s.ours| || Begin(s) >= Cover(s); }
  }

  lemma OneMore(s: Net, lo: nat, n: nat)
    requires lo <= s.published <= |s.ours| && IsNext(s, n)
    ensures Wanted(s.ours, lo, n) == Wanted(s.ours, lo, s.published) + [n]
  {
    WantedSplits(s.ours, lo, s.published, n);
    WantedUpToFirst(s.ours, s.published, n);
  }

  /** The offer puts a number into the channel out of turn: behind one that was dropped, or not the
      next of the collection. */
  predicate OutOfTurn(s: Net, m: Message) {
    && m.Durable? && IsOurs(s.ours, m.n)
    && s.registered && |s.channel| < CHANNEL_CAPACITY
    && (s.dropped || !IsNext(s, m.n))
  }

  lemma OfferKeepsChannel(s: Net, m: Message)
    requires ChannelInv(s) && CanAct(s, Offer(m)) && !OutOfTurn(s, m)
    ensures ChannelInv(Offered(s, m))
  {
    DurablesAppend(s.channel, m);
    if m.Durable? && s.registered && IsNext(s, m.n) { OneMore(s, s.taken, m.n); }
  }

  lemma OutOfTurnBreaksChannel(s: Net, m: Message)
    requires ChannelInv(s) && CanAct(s, Offer(m)) && OutOfTurn(s, m)
    ensures !ChannelInv(Offered(s, m))
  {
    DurablesAppend(s.channel, m);
    var next := Offered(s, m);
    assert |Durables(next.channel)| == |Wanted(s.ours, s.taken, s.reached)| + 1;
    if !s.dropped && s.published < m.n {
      var k :| s.published < k < m.n && IsOurs(s.ours, k);
      WantedSplits(s.ours, s.taken, s.published, m.n);
      var late := Wanted(s.ours, s.published, m.n);
      WantedMembers(s.ours, s.published, m.n, late);
      assert k in late && m.n in late;
      assert |late| >= 2;
    }
  }

  /** For every state in which the feed is in order, an offer keeps it so if and only if it does not
      put a number into the channel out of turn: it is the next of the collection with no drop
      pending, or does not concern the subscription, or finds the channel full. */
  lemma OfferKeepsFeedIff(s: Net, m: Message)
    requires ChannelInv(s) && ServedInv(s) && CanAct(s, Offer(m))
    ensures ChannelInv(After(s, Offer(m))) && ServedInv(After(s, Offer(m))) <==> !OutOfTurn(s, m)
  {
    if OutOfTurn(s, m) {
      OutOfTurnBreaksChannel(s, m);
    } else {
      OfferKeepsChannel(s, m);
      ServiceUntouched(s, Offered(s, m));
    }
  }

  lemma ServiceUntouched(s: Net, s': Net)
    requires ServedInv(s)
    requires s'.ours == s.ours && s'.phase == s.phase && s'.resume == s.resume && s'.pending == s.pending && s'.client == s.client
    requires s'.base == s.base && s'.snapshot == s.snapshot && s'.taken == s.taken
    ensures ServedInv(s')
  {
  }

  lemma ReceiveKeepsFeed(s: Net)
    requires ChannelInv(s) && ServedInv(s) && CanAct(s, Receive)
    ensures ChannelInv(After(s, Receive)) && ServedInv(After(s, Receive))
  {
    var m := s.channel[0];
    var w := Durables(s.channel);
    if m.Durable? {
      assert w == [m.n] + Durables(s.channel[1..]);
      WantedFirst(s.ours, s.taken, s.reached, w);
      ServeNext(s, m.n);
      assert Max(s.taken, m.n) == m.n;
      TakeOne(s, m.n);
    }
  }

  lemma TakeOne(s: Net, n: nat)
    requires ChannelInv(s) && s.phase == Live && s.taken < n <= s.reached && s.channel != []
    requires Wanted(s.ours, n, s.reached) == Durables(s.channel[1..])
    ensures ChannelInv(s.(channel := s.channel[1..], client := Received(s.client, s.channel[0]), taken := n))
  {
  }

  /** The next number of the channel is either already covered by the replay, and skipped, or the
      very next one the client is owed. */
  lemma ServeNext(s: Net, n: nat)
    requires ChannelInv(s) && ServedInv(s) && s.phase == Live
    requires s.taken < n <= s.reached && IsOurs(s.ours, n) && Wanted(s.ours, s.taken, n) == [n]
    ensures var s' := s.(client := Received(s.client, Durable(n)), taken := n);
            s'.client.sent == UpTo(s.ours, Begin(s'), Cover(s'))
            && s'.client.lastSent == if s'.client.sent == [] then s.resume else s'.client.sent[|s'.client.sent| - 1]
  {
    ServedSoFar(s, n);
    if n > Cover(s) {
      WantedSplits(s.ours, Begin(s), Cover(s), n);
      NextOnly(s.ours, s.taken, Cover(s), n);
    }
  }

  /** The client has passed exactly the numbers its service covers. */
  lemma ServedSoFar(s: Net, n: nat)
    requires ChannelInv(s) && ServedInv(s) && s.phase == Live && IsOurs(s.ours, n) && n > s.base
    ensures n <= Cover(s) <==> n <= s.client.lastSent
  {
    var begin, cover, sent := Begin(s), Cover(s), s.client.sent;
    var hi := if cover <= |s.ours| then cover else |s.ours|;
    WantedMembers(s.ours, begin, hi, sent);
    if sent != [] { assert sent[|sent| - 1] in sent; }
    if n <= cover && n > begin {
      assert n in sent;
      var i :| 0 <= i < |sent| && sent[i] == n;
    }
  }

  lemma NextOnly(ours: Ours, lo: nat, mid: nat, n: nat)
    requires lo <= mid < n <= |ours| && IsOurs(ours, n) && Wanted(ours, lo, n) == [n]
    ensures Wanted(ours, mid, n) == [n]
  {
    WantedSplits(ours, lo, mid, n);
    var late := Wanted(ours, mid, n);
    WantedMembers(ours, mid, n, late);
    assert n in late;
    assert |Wanted(ours, lo, mid)| + |late| == 1;
  }

  /** The replay keeps the feed right if and only if it is clean. */
  lemma ReplayKeepsFeedIff(s: Net)
    requires ChannelInv(s) && ServedInv(s) && OrderInv(s) && CanAct(s, Replay)
    ensures ChannelInv(After(s, Replay)) && ServedInv(After(s, Replay)) <==> CleanReplay(s)
  {
    assert s.client.sent + Replayed(s) == Replayed(s);
    if s.resume > 0 { ReplayCompleteIffClean(s); }
  }

  lemma SendKeepsFeed(s: Net)
    requires ChannelInv(s) && ServedInv(s) && OrderInv(s) && CanAct(s, SendReplayed)
    ensures ChannelInv(After(s, SendReplayed)) && ServedInv(After(s, SendReplayed))
  {
    var n, sent := s.pending[0], s.client.sent;
    assert sent + s.pending == (sent + [n]) + s.pending[1..];
    WantedMembers(s.ours, s.resume, s.snapshot, sent + s.pending);
    assert (sent + s.pending)[|sent|] == n && n in sent + s.pending;
    if sent != [] { assert (sent + s.pending)[|sent| - 1] == sent[|sent| - 1]; }
  }

  lemma LiveKeepsFeed(s: Net)
    requires ChannelInv(s) && ServedInv(s) && CanAct(s, GoLive)
    ensures ChannelInv(After(s, GoLive)) && ServedInv(After(s, GoLive))
  {
    if s.resume > 0 {
      assert s.client.sent + [] == s.client.sent;
    }
  }

  lemma ServedIsPrefix(s: Net)
    requires ChannelInv(s) && ServedInv(s)
    ensures s.client.sent <= Wanted(s.ours, Begin(s), |s.ours|)
  {
    match s.phase
    case Replaying =>
      if s.resume > 0 && s.resume <= s.snapshot { WantedSplits(s.ours, s.resume, s.snapshot, |s.ours|); }
    case Live =>
      var hi := if Cover(s) <= |s.ours| then Cover(s) else |s.ours|;
      if Begin(s) <= hi { WantedSplits(s.ours, Begin(s), hi, |s.ours|); }
    case _ =>
  }

  lemma ActKeepsFeed(s: Net, a: Act)
    requires ChannelInv(s) && ServedInv(s) && OrderInv(s) && CanAct(s, a) && InOrder(s, a)
    requires a.Replay? ==> CleanReplay(s)
    ensures ChannelInv(After(s, a)) && ServedInv(After(s, a))
  {
    match a
    case Commit(more) => CommitKeepsFeed(s, more);
    case Offer(m) => OfferKeepsFeedIff(s, m);
    case Replay => ReplayKeepsFeedIff(s);
    case SendReplayed => SendKeepsFeed(s);
    case GoLive => LiveKeepsFeed(s);
    case Receive => ReceiveKeepsFeed(s);
    case Disconnect => ServedIsPrefix(s);
    case _ =>
  }

  lemma {:induction false} RunKeepsFeed(resume: LastEventId, states: seq<Net>, acts: seq<Act>, i: nat)
    requires IsFeedRun(resume, states, acts) && i < |states|
    requires forall j | 0 <= j < i :: InOrder(states[j], acts[j]) && (acts[j].Replay? ==> CleanReplay(states[j]))
    ensures ChannelInv(states[i]) && ServedInv(states[i])
  {
    if i > 0 {
      RunKeepsFeed(resume, states, acts, i - 1);
      SentStrictlyIncreases(resume, states, acts, i - 1);
      ActKeepsFeed(states[i - 1], acts[i - 1]);
    }
  }

  /** For publishers that hold the write lock, and a resume point still covered by the log, what a
      client was sent is at every moment a gap-free, duplicate-free prefix of the collection's
      committed events after that point (or after subscription, without one), even if its channel
      overflowed. */
  lemma SentIsGapFreePrefix(resume: LastEventId, states: seq<Net>, acts: seq<Act>, i: nat)
    requires IsFeedRun(resume, states, acts) && i < |states|
    requires forall j | 0 <= j < i :: InOrder(states[j], acts[j]) && (acts[j].Replay? ==> CleanReplay(states[j]))
    ensures states[i].client.sent <= Wanted(states[i].ours, Begin(states[i]), |states[i].ours|)
  {
    RunKeepsFeed(resume, states, acts, i);
    ServedIsPrefix(states[i]);
  }

  /** The subscriber is never stuck: once subscribed it replays, sends what it replayed one by one in
      order, goes live, and takes the messages of its channel one by one in order. */
  lemma ClientCanGoOn(s: Net)
    ensures s.phase == Idle ==> CanAct(s, Subscribe) && After(s, Subscribe).phase == Subscribed && After(s, Subscribe).registered
    ensures s.phase == Subscribed ==> CanAct(s, Replay) && After(s, Replay).phase == Replaying
    ensures s.phase == Replaying && s.pending != [] ==>
              CanAct(s, SendReplayed) && After(s, SendReplayed).client.sent == s.client.sent + [s.pending[0]]
              && After(s, SendReplayed).pending == s.pending[1..]
    ensures s.phase == Replaying && s.pending == [] ==> CanAct(s, GoLive) && After(s, GoLive).phase == Live
    ensures s.phase == Live && s.channel != [] ==> CanAct(s, Receive) && After(s, Receive).channel == s.channel[1..]
  {
  }

  /** What a prefix leaves open: a live client whose channel has no event left, whose subscription was
      not dropped, and of whose events all committed ones have been published, has been sent
      everything it is owed. */
  lemma DrainedClientHasEverything(s: Net)
    requires ChannelInv(s) && ServedInv(s) && s.phase == Live && s.registered && !s.dropped
    requires forall m | m in s.channel :: m.Transient?
    requires forall n | s.published < n <= |s.ours| :: !IsOurs(s.ours, n)
    ensures s.client.sent == Wanted(s.ours, Begin(s), |s.ours|)
  {
    NoDurables(s.channel);
    EmptyWantsNothing(s.ours, s.taken, s.reached);
    var hi := if Cover(s) <= |s.ours| then Cover(s) else |s.ours|;
    forall n | hi < n <= |s.ours| ensures !IsOurs(s.ours, n) {
      assert s.taken < n && (n <= s.reached || s.published < n);
    }
    WantedNothing(s.ours, hi, |s.ours|);
    if Begin(s) <= hi { WantedSplits(s.ours, Begin(s), hi, |s.ours|); }
    else { LaterOnly(s.ours, hi, Begin(s)); }
  }

  lemma LaterOnly(ours: Ours, hi: nat, begin: nat)
    requires hi <= |ours| && hi < begin && forall n | hi < n <= |ours| :: !IsOurs(ours, n)
    ensures Wanted(ours, begin, hi) == [] && Wanted(ours, begin, |ours|) == []
  {
    WantedNothing(ours, begin, |ours|);
  }

  lemma {:induction false} NoDurables(channel: seq<Message>)
    requires forall m | m in channel :: m.Transient?
    ensures Durables(channel) == []
  {
    if channel != [] {
      assert channel[0] in channel;
      NoDurables(channel[1..]);
    }
  }

  lemma EmptyWantsNothing(ours: Ours, lo: nat, hi: nat)
    requires hi <= |ours| && Wanted(ours, lo, hi) == []
    ensures forall n | lo < n <= hi :: !IsOurs(ours, n)
  {
    WantedMembers(ours, lo, hi, []);
  }

  /** Nothing is ever sent on a closed channel: a closed subscription is no longer registered. */
  lemma {:induction false} ClosedIsUnregistered(resume: LastEventId, states: seq<Net>, acts: seq<Act>, i: nat)
    requires IsFeedRun(resume, states, acts) && i < |states|
    ensures states[i].closed ==> states[i].closing
    ensures states[i].closing ==> !states[i].registered
    ensures states[i].phase == Idle ==> !states[i].registered && !states[i].closing && !states[i].slow
    ensures states[i].phase != Idle && states[i].phase != Ended && !states[i].registered ==> states[i].closing
  {
    if i > 0 {
      ClosedIsUnregistered(resume, states, acts, i - 1);
    }
  }

  // ---------------------------------------------------------------- what an offer out of turn does

  /** What was sent stays, and what follows is larger: in every run a number that was passed over
      while a larger one was sent is never sent. */
  lemma {:induction false} PassedOverIsNeverSent(resume: LastEventId, states: seq<Net>, acts: seq<Act>, i: nat, j: nat, n: nat, larger: nat)
    requires IsFeedRun(resume, states, acts) && i <= j < |states|
    requires larger in states[i].client.sent && n < larger && n !in states[i].client.sent
    ensures n !in states[j].client.sent
  {
    SentGrows(resume, states, acts, i, j);
    SentStrictlyIncreases(resume, states, acts, j);
    var before, now := states[i].client.sent, states[j].client.sent;
    var p :| 0 <= p < |before| && before[p] == larger;
    forall q | 0 <= q < |now| ensures now[q] != n {
      if q >= |before| { assert now[p] < now[q]; } else { assert now[q] == before[q]; }
    }
  }

  ghost predicate Grows(s: Net, t: Net) {
    && s.client.sent <= t.client.sent && s.ours <= t.ours && s.resume == t.resume
    && (s.phase != Idle ==> s.base == t.base && t.phase != Idle)
  }

  lemma GrowsOn(s: Net, t: Net, u: Net)
    requires Grows(s, t) && Grows(t, u)
    ensures Grows(s, u)
  {
  }

  lemma ActGrows(s: Net, a: Act)
    requires CanAct(s, a)
    ensures Grows(s, After(s, a))
  {
    match a
    case Offer(m) => OfferGrows(s, m);
    case Receive =>
    case _ =>
  }

  lemma OfferGrows(s: Net, m: Message)
    ensures Grows(s, Offered(s, m))
  {
  }

  lemma StepGrows(resume: LastEventId, states: seq<Net>, acts: seq<Act>, k: nat)
    requires IsFeedRun(resume, states, acts) && k < |acts|
    ensures Grows(states[k], states[k + 1])
  {
    ActGrows(states[k], acts[k]);
  }

  lemma GrowsSelf(s: Net)
    ensures Grows(s, s)
  {
  }

  ghost predicate Growing(states: seq<Net>) {
    forall k | 0 <= k < |states| - 1 :: Grows(states[k], states[k + 1])
  }

  lemma {:induction false} GrowingGrows(states: seq<Net>, i: nat, j: nat)
    requires Growing(states) && i <= j < |states|
    ensures Grows(states[i], states[j])
    decreases j - i
  {
    if i < j {
      GrowingGrows(states, i, j - 1);
      GrowsOn(states[i], states[j - 1], states[j]);
    } else {
      GrowsSelf(states[i]);
    }
  }

  lemma SentGrows(resume: LastEventId, states: seq<Net>, acts: seq<Act>, i: nat, j: nat)
    requires IsFeedRun(resume, states, acts) && i <= j < |states|
    ensures Grows(states[i], states[j])
  {
    forall k | 0 <= k < |states| - 1 ensures Grows(states[k], states[k + 1]) {
      StepGrows(resume, states, acts, k);
    }
    GrowingGrows(states, i, j);
  }

  /** A larger number is in front of `n` in the channel. */
  ghost predicate InFront(channel: seq<Message>, larger: nat, n: nat) {
    exists p | 0 <= p < |channel| :: channel[p] == Durable(larger) && Durable(n) !in channel[..p]
  }

  /** The client has passed `n`, or will pass it before it can see it. */
  ghost predicate Overtaken(s: Net, n: nat, larger: nat) {
    && 0 < n < larger && n !in s.client.sent && s.phase != Idle
    && (s.phase == Subscribed ==> s.resume == 0)
    && (s.phase == Replaying ==> n !in s.pending)
    && (s.phase != Ended ==> s.client.lastSent >= larger || InFront(s.channel, larger, n))
  }

  lemma ReceiveKeepsOvertaken(s: Net, n: nat, larger: nat)
    requires Overtaken(s, n, larger) && CanAct(s, Receive)
    ensures Overtaken(After(s, Receive), n, larger)
  {
    var rest := s.channel[1..];
    if s.client.lastSent < larger {
      var p :| 0 <= p < |s.channel| && s.channel[p] == Durable(larger) && Durable(n) !in s.channel[..p];
      if p > 0 {
        assert s.channel[0] in s.channel[..p];
        assert rest[p - 1] == Durable(larger);
        assert forall m | m in rest[..p - 1] :: m in s.channel[..p];
      }
    }
  }

  lemma InFrontStays(channel: seq<Message>, m: Message, larger: nat, n: nat)
    requires InFront(channel, larger, n)
    ensures InFront(channel + [m], larger, n)
  {
    var p :| 0 <= p < |channel| && channel[p] == Durable(larger) && Durable(n) !in channel[..p];
    assert (channel + [m])[..p] == channel[..p] && (channel + [m])[p] == Durable(larger);
  }

  lemma OfferKeepsOvertaken(s: Net, m: Message, n: nat, larger: nat)
    requires Overtaken(s, n, larger) && CanAct(s, Offer(m))
    ensures Overtaken(After(s, Offer(m)), n, larger)
  {
    if InFront(s.channel, larger, n) { InFrontStays(s.channel, m, larger, n); }
  }

  lemma ActKeepsOvertaken(s: Net, a: Act, n: nat, larger: nat)
    requires Overtaken(s, n, larger) && CanAct(s, a)
    ensures Overtaken(After(s, a), n, larger)
  {
    match a
    case Receive => ReceiveKeepsOvertaken(s, n, larger);
    case Offer(m) => OfferKeepsOvertaken(s, m, n, larger);
    case SendReplayed => assert s.pending[0] in s.pending && forall k | k in s.pending[1..] :: k in s.pending;
    case _ =>
  }

  lemma {:induction false} OvertakenForGood(resume: LastEventId, states: seq<Net>, acts: seq<Act>, i: nat, j: nat, n: nat, larger: nat)
    requires IsFeedRun(resume, states, acts) && i <= j < |states| && Overtaken(states[i], n, larger)
    ensures Overtaken(states[j], n, larger)
    decreases j - i
  {
    if i < j {
      OvertakenForGood(resume, states, acts, i, j - 1, n, larger);
      ActKeepsOvertaken(states[j - 1], acts[j - 1], n, larger);
    }
  }

  /** The subscriber is owed `n` and no replay will bring it. */
  predicate OnlyLive(s: Net, n: nat) {
    s.resume == 0 || (s.phase != Subscribed && n > s.snapshot && n > s.resume)
  }

  lemma JumpOvertakes(s: Net, n: nat, larger: nat)
    requires ChannelInv(s) && ServedInv(s) && OrderInv(s) && CanAct(s, Offer(Durable(larger))) && OnlyLive(s, n)
    requires OutOfTurn(s, Durable(larger)) && !s.dropped && IsOurs(s.ours, n) && s.published < n < larger
    ensures Overtaken(After(s, Offer(Durable(larger))), n, larger)
  {
    var next := After(s, Offer(Durable(larger)));
    DurablesOf(s.channel, Durable(n));
    WantedMembers(s.ours, s.taken, s.reached, Durables(s.channel));
    assert next.channel[|s.channel|] == Durable(larger) && next.channel[..|s.channel|] == s.channel;
    NotYetServed(s, n);
  }

  lemma {:induction false} DurablesOf(channel: seq<Message>, m: Message)
    requires m.Durable?
    ensures m in channel ==> m.n in Durables(channel)
  {
    if channel != [] { DurablesOf(channel[1..], m); }
  }

  lemma NotYetServed(s: Net, n: nat)
    requires ChannelInv(s) && ServedInv(s) && s.registered && s.published < n && OnlyLive(s, n)
    ensures n !in s.client.sent && (s.phase == Replaying ==> n !in s.pending)
  {
    match s.phase
    case Replaying =>
      if s.resume > 0 { WantedMembers(s.ours, s.resume, s.snapshot, s.client.sent + s.pending); }
      assert n in s.client.sent || n in s.pending ==> n in s.client.sent + s.pending;
    case Live =>
      var hi := if Cover(s) <= |s.ours| then Cover(s) else |s.ours|;
      WantedMembers(s.ours, Begin(s), hi, s.client.sent);
    case _ =>
  }

  /** In every run: an offer that jumps over an event the subscriber is owed, and that no replay
      brings, loses it for good, whatever is offered, received or reopened afterwards. This is what
      a publisher can do that has released the write lock first, as the TTL purge has. */
  lemma UnlockedPublisherLeavesGap(resume: LastEventId, states: seq<Net>, acts: seq<Act>, i: nat, j: nat, n: nat, larger: nat)
    requires IsFeedRun(resume, states, acts) && i < j < |states|
    requires ChannelInv(states[i]) && ServedInv(states[i]) && acts[i] == Offer(Durable(larger))
    requires OutOfTurn(states[i], Durable(larger)) && !states[i].dropped
    requires IsOurs(states[i].ours, n) && states[i].published < n < larger && OnlyLive(states[i], n)
    ensures n !in states[j].client.sent
    ensures n in Wanted(states[j].ours, Begin(states[j]), |states[j].ours|)
  {
    SentStrictlyIncreases(resume, states, acts, i);
    JumpOvertakes(states[i], n, larger);
    OvertakenForGood(resume, states, acts, i + 1, j, n, larger);
    SentGrows(resume, states, acts, i, j);
    WantedMembers(states[j].ours, Begin(states[j]), |states[j].ours|, Wanted(states[j].ours, Begin(states[j]), |states[j].ours|));
    assert IsOurs(states[j].ours, n);
  }

  lemma FourActs(s0: Net, a0: Act, s1: Net, a1: Act, s2: Net, a2: Act, s3: Net, a3: Act, s4: Net)
    requires s0 == Start(s0.resume)
    requires CanAct(s0, a0) && s1 == After(s0, a0) && CanAct(s1, a1) && s2 == After(s1, a1)
    requires CanAct(s2, a2) && s3 == After(s2, a2) && CanAct(s3, a3) && s4 == After(s3, a3)
    ensures IsFeedRun(s0.resume, [s0, s1, s2, s3, s4], [a0, a1, a2, a3])
  {
  }

  /** A subscriber without resume point, two commits, neither published yet. */
  const TWO_COMMITTED: Net :=
    Net([true, true], 0, true, false, false, false, [], Live, 0, [], Client(0, []), 0, 0, 0, 0, false)

  lemma TwoCommittedIsReached() returns (states: seq<Net>, acts: seq<Act>)
    ensures IsFeedRun(0, states, acts) && |states| == 5 && states[4] == TWO_COMMITTED
  {
    var s0 := Start(0);
    var s1 := After(s0, Subscribe);
    var s2 := After(s1, Replay);
    var s3 := After(s2, GoLive);
    assert [] + [true, true] == [true, true];
    FourActs(s0, Subscribe, s1, Replay, s2, GoLive, s3, Commit([true, true]), TWO_COMMITTED);
    acts := [Subscribe, Replay, GoLive, Commit([true, true])];
    states := [s0, s1, s2, s3, TWO_COMMITTED];
  }

  /** Such an offer can be made in a state a run reaches: the second of two commits is published
      first. */
  lemma GapStateIsReached() returns (states: seq<Net>, acts: seq<Act>, s: Net)
    ensures IsFeedRun(0, states, acts) && |states| == 5 && states[4] == s
    ensures ChannelInv(s) && ServedInv(s) && CanAct(s, Offer(Durable(2))) && OutOfTurn(s, Durable(2)) && !s.dropped
    ensures IsOurs(s.ours, 1) && s.published < 1 && OnlyLive(s, 1)
  {
    s := TWO_COMMITTED;
    states, acts := TwoCommittedIsReached();
    assert IsOurs(s.ours, 1) && IsOurs(s.ours, 2);
    assert Wanted(s.ours, 0, 0) == [] && Durables([]) == [];
  }

  // ---------------------------------------------------------------- the resume point that wraps

  ghost predicate WrapInv(s: Net) {
    && s.resume == LAST_ID && s.snapshot <= |s.ours|
    && match s.phase
       case Idle => s.client.sent == []
       case Subscribed => s.client.sent == []
       case Replaying => s.client.sent + s.pending == Wanted(s.ours, Horizon(s.snapshot), s.snapshot)
       case Live => s.client.sent == Wanted(s.ours, Horizon(s.snapshot), s.snapshot)
       case Ended => s.client.sent <= Wanted(s.ours, Horizon(s.snapshot), s.snapshot)
  }

  lemma ActKeepsWrap(s: Net, a: Act)
    requires WrapInv(s) && OrderInv(s) && CanAct(s, a)
    ensures WrapInv(After(s, a))
  {
    match a
    case Commit(more) => WantedGrows(s.ours, more, Horizon(s.snapshot), s.snapshot);
    case Replay =>
      BelowIsAfterUnlessItWraps(s.resume, 0);
      assert s.client.sent + Replayed(s) == Replayed(s);
    case SendReplayed => assert s.client.sent + s.pending == (s.client.sent + [s.pending[0]]) + s.pending[1..];
    case GoLive => assert s.client.sent + [] == s.client.sent;
    case Receive => ReceiveKeepsWrap(s);
    case Offer(m) => OfferKeepsWrap(s, m);
    case _ =>
  }

  lemma ReceiveKeepsWrap(s: Net)
    requires WrapInv(s) && OrderInv(s) && CanAct(s, Receive)
    ensures WrapInv(After(s, Receive))
  {
    assert s.channel[0] in s.channel;
  }

  lemma OfferKeepsWrap(s: Net, m: Message)
    requires WrapInv(s) && CanAct(s, Offer(m))
    ensures WrapInv(Offered(s, m))
  {
  }

  /** In every run of a client that resumes from 2^64 - 1: it is sent everything the log retained of
      the collection when the replay ran, and nothing ever after. */
  lemma {:induction false} WrappedResumeReplaysAllThenNothing(states: seq<Net>, acts: seq<Act>, i: nat)
    requires IsFeedRun(LAST_ID, states, acts) && i < |states|
    ensures WrapInv(states[i])
    ensures states[i].phase == Live ==>
              states[i].client.sent == Wanted(states[i].ours, Horizon(states[i].snapshot), states[i].snapshot)
  {
    if i > 0 {
      WrappedResumeReplaysAllThenNothing(states, acts, i - 1);
      SentStrictlyIncreases(LAST_ID, states, acts, i - 1);
      ActKeepsWrap(states[i - 1], acts[i - 1]);
    }
  }
}
