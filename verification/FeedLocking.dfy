/** Why document writers and transactions publish in order: they commit and publish all their
    events between taking and releasing the database's write lock. The lock protocol, the writers
    and the subscriber run interleaved. */
module FeedLocking {
  import opened ByteOrder
  import opened Documents
  import opened Keys
  import opened Storage
  import opened EventLog
  import opened Feed
  import opened FeedProofs
  import WriteLocks

  /** What a thread has committed and not yet published: the events next+1 to upTo (of all
      collections). It `failed` when its last offer found the channel full. */
  datatype Owed = Owed(next: nat, upTo: nat, failed: bool)

  /** The feed, the write lock and its threads, and what each thread owes. */
  datatype Locked = Locked(net: Net, locks: WriteLocks.Locks, owed: seq<Owed>)

  /** A step of the lock protocol, what a writer does inside it, or everything else: the subscriber's
      own acts, presence and publish messages, and the closing of slow subscribers. A deletion that
      could not remove the file forgets the mutex all the same. */
  datatype Deed = LockStep(step: WriteLocks.Step) | WriterCommits(t: nat, more: Ours) | WriterPublishes(t: nat) | Elsewhere(act: Act)

  predicate Pending(o: Owed) {
    o.next < o.upTo
  }

  /** A call that dropped a slow subscriber has unregistered it before it goes on. */
  predicate MustClose(s: Locked, t: nat)
    requires t < |s.owed|
  {
    s.owed[t].failed && s.net.dropped
  }

  predicate Inside(s: Locked, t: nat) {
    t < |s.locks.pcs| && t < |s.owed| && s.locks.pcs[t].Holding?
  }

  /** A writer commits when it owes nothing, publishes its events one after the other, and lets the
      lock go when all are out. */
  predicate CanDo(s: Locked, d: Deed) {
    match d
    case LockStep(step) =>
      && WriteLocks.Enabled(s.locks, step)
      && (Inside(s, step.t) ==> !Pending(s.owed[step.t]) && !MustClose(s, step.t))
    case WriterCommits(t, more) => Inside(s, t) && !Pending(s.owed[t]) && !MustClose(s, t) && CanAct(s.net, Commit(more))
    case WriterPublishes(t) => Inside(s, t) && Pending(s.owed[t]) && s.owed[t].upTo <= |s.net.ours| && !MustClose(s, t)
    case Elsewhere(a) => CanAct(s.net, a) && !a.Commit? && !(a.Offer? && a.m.Durable?)
  }

  /** One event of the thread is out; a drop is its to clear. */
  function Published(s: Locked, t: nat, net: Net): Locked
    requires t < |s.owed|
  {
    s.(net := net, owed := s.owed[t := Owed(s.owed[t].next + 1, s.owed[t].upTo, net.dropped && !s.net.dropped)])
  }

  function Do(s: Locked, d: Deed): Locked
    requires CanDo(s, d)
  {
    match d
    case LockStep(step) => s.(locks := WriteLocks.Next(s.locks, step))
    case WriterCommits(t, more) =>
      s.(net := After(s.net, Commit(more)), owed := s.owed[t := Owed(|s.net.ours|, |s.net.ours| + |more|, false)])
    case WriterPublishes(t) => Published(s, t, After(s.net, Offer(Durable(s.owed[t].next + 1))))
    case Elsewhere(a) => s.(net := After(s.net, a))
  }

  function Begun(resume: LastEventId, threads: nat): Locked {
    Locked(Start(resume), WriteLocks.Locks(None, 0, seq(threads, _ => WriteLocks.Away)), seq(threads, _ => Owed(0, 0, false)))
  }

  ghost predicate IsLockedRun(resume: LastEventId, threads: nat, states: seq<Locked>, deeds: seq<Deed>) {
    && |states| == |deeds| + 1 && states[0] == Begun(resume, threads)
    && forall i | 0 <= i < |deeds| :: CanDo(states[i], deeds[i]) && states[i + 1] == Do(states[i], deeds[i])
  }

  /** The collection's published events are those among the first `done`. */
  ghost predicate OutUpTo(net: Net, done: nat) {
    net.published <= done <= |net.ours| && forall k | net.published < k <= done :: !IsOurs(net.ours, k)
  }

  /** Only the thread inside the lock owes events, and they are the last ones committed; when nobody
      owes any, every committed event has been published. A drop is the inside thread's to clear. */
  ghost predicate OwedInv(s: Locked) {
    && |s.owed| == |s.locks.pcs|
    && (forall t | 0 <= t < |s.owed| && Pending(s.owed[t]) ::
          s.locks.pcs[t].Holding? && s.owed[t].upTo == |s.net.ours| && OutUpTo(s.net, s.owed[t].next))
    && ((forall t | 0 <= t < |s.owed| :: !Pending(s.owed[t])) ==> OutUpTo(s.net, |s.net.ours|))
    && (s.net.dropped ==> exists t :: 0 <= t < |s.owed| && s.locks.pcs[t].Holding? && s.owed[t].failed)
  }

  ghost predicate FeedInv(net: Net) {
    ChannelInv(net) && ServedInv(net) && OrderInv(net)
  }

  ghost predicate LockedInv(s: Locked) {
    FeedInv(s.net) && WriteLocks.LockInv(s.locks) && OwedInv(s)
  }

  lemma OnlyOneInside(s: Locked, t: nat)
    requires LockedInv(s) && Inside(s, t)
    ensures forall u | 0 <= u < |s.owed| && u != t :: !s.locks.pcs[u].Holding? && !Pending(s.owed[u])
    ensures !MustClose(s, t) ==> !s.net.dropped
    ensures !Pending(s.owed[t]) ==> OutUpTo(s.net, |s.net.ours|)
  {
  }

  lemma ActKeepsFeedInv(net: Net, a: Act)
    requires FeedInv(net) && CanAct(net, a) && InOrder(net, a) && (a.Replay? ==> CleanReplay(net))
    ensures FeedInv(After(net, a))
  {
    ActKeepsFeed(net, a);
    ActKeepsOrder(net, a);
  }

  // ---------------------------------------------------------------- the kinds of deed

  lemma LockStepKeepsOwed(s: Locked, step: WriteLocks.Step)
    requires LockedInv(s) && CanDo(s, LockStep(step))
    ensures OwedInv(Do(s, LockStep(step)))
  {
    var next := Do(s, LockStep(step));
    if s.net.dropped {
      var t :| 0 <= t < |s.owed| && s.locks.pcs[t].Holding? && s.owed[t].failed;
      assert Inside(s, t) && MustClose(s, t) && t != step.t;
      assert next.locks.pcs[t].Holding?;
    }
  }

  lemma CommitKeepsLocked(s: Locked, t: nat, more: Ours)
    requires LockedInv(s) && CanDo(s, WriterCommits(t, more))
    ensures LockedInv(Do(s, WriterCommits(t, more)))
  {
    OnlyOneInside(s, t);
    ActKeepsFeedInv(s.net, Commit(more));
    var next := Do(s, WriterCommits(t, more));
    assert forall k | 0 < k <= |s.net.ours| :: IsOurs(s.net.ours + more, k) == IsOurs(s.net.ours, k);
    assert OutUpTo(next.net, |s.net.ours|);
    if |more| == 0 { assert next.net.ours == s.net.ours; }
  }

  /** Under the lock the next event to publish is the next of its collection. */
  lemma PublishesInOrder(net: Net, done: nat)
    requires FeedInv(net) && OutUpTo(net, done) && done < |net.ours| && !net.dropped
    ensures CanAct(net, Offer(Durable(done + 1))) && InOrder(net, Offer(Durable(done + 1)))
    ensures FeedInv(After(net, Offer(Durable(done + 1)))) && OutUpTo(After(net, Offer(Durable(done + 1))), done + 1)
    ensures After(net, Offer(Durable(done + 1))).ours == net.ours
  {
    ActKeepsFeedInv(net, Offer(Durable(done + 1)));
    assert After(net, Offer(Durable(done + 1))).published == if IsOurs(net.ours, done + 1) then done + 1 else net.published;
  }

  lemma InsideOwesTheLast(s: Locked, t: nat)
    requires LockedInv(s) && CanDo(s, WriterPublishes(t))
    ensures FeedInv(s.net) && !s.net.dropped
    ensures s.owed[t].next < s.owed[t].upTo == |s.net.ours| && OutUpTo(s.net, s.owed[t].next)
  {
    OnlyOneInside(s, t);
  }

  lemma PublishIs(s: Locked, t: nat)
    requires CanDo(s, WriterPublishes(t))
    ensures CanAct(s.net, Offer(Durable(s.owed[t].next + 1)))
    ensures Do(s, WriterPublishes(t)) == Published(s, t, After(s.net, Offer(Durable(s.owed[t].next + 1))))
  {
  }

  lemma PublishKeepsLocked(s: Locked, t: nat)
    requires LockedInv(s) && CanDo(s, WriterPublishes(t))
    ensures LockedInv(Do(s, WriterPublishes(t)))
  {
    InsideOwesTheLast(s, t);
    PublishIs(s, t);
    var net := After(s.net, Offer(Durable(s.owed[t].next + 1)));
    PublishesInOrder(s.net, s.owed[t].next);
    PublishedStaysLocked(s, t, net);
  }

  lemma PublishedStaysLocked(s: Locked, t: nat, net: Net)
    requires LockedInv(s) && Inside(s, t) && Pending(s.owed[t]) && !s.net.dropped
    requires FeedInv(net) && net.ours == s.net.ours && OutUpTo(net, s.owed[t].next + 1)
    ensures LockedInv(Published(s, t, net))
  {
    OnlyOneInside(s, t);
    var next := Published(s, t, net);
    if net.dropped { assert next.locks.pcs[t].Holding? && next.owed[t].failed; }
    assert !Pending(next.owed[t]) ==> OutUpTo(net, |net.ours|);
  }

  lemma OthersPublishNothing(net: Net, a: Act)
    requires CanAct(net, a) && !a.Commit? && !(a.Offer? && a.m.Durable?)
    ensures After(net, a).published == net.published && After(net, a).ours == net.ours
    ensures After(net, a).dropped ==> net.dropped
  {
  }

  lemma OthersKeepOwed(s: Locked, a: Act)
    requires LockedInv(s) && CanDo(s, Elsewhere(a))
    ensures OwedInv(Do(s, Elsewhere(a)))
  {
    OthersPublishNothing(s.net, a);
  }

  /** The two deeds that can break the feed: a deletion that forgets the mutex under a waiting thread,
      and a replay that does not hand over what is owed. */
  ghost predicate Breaks(s: Locked, d: Deed) {
    (d.LockStep? && WriteLocks.Strands(s.locks, d.step)) || (d == Elsewhere(Replay) && !CleanReplay(s.net))
  }

  lemma DeedKeepsLockedIff(s: Locked, d: Deed)
    requires LockedInv(s) && CanDo(s, d)
    ensures LockedInv(Do(s, d)) <==> !Breaks(s, d)
  {
    match d
    case LockStep(step) =>
      WriteLocks.StepKeepsInvIff(s.locks, step);
      LockStepKeepsOwed(s, step);
    case WriterCommits(t, more) => CommitKeepsLocked(s, t, more);
    case WriterPublishes(t) => PublishKeepsLocked(s, t);
    case Elsewhere(a) =>
      OthersKeepOwed(s, a);
      if a == Replay { ReplayKeepsFeedIff(s.net); }
      if !Breaks(s, d) { ActKeepsFeedInv(s.net, a); }
  }

  // ---------------------------------------------------------------- runs

  lemma BegunInv(resume: LastEventId, threads: nat)
    ensures LockedInv(Begun(resume, threads))
  {
  }

  /** In every run of writers that work between taking and releasing the write lock, step by step and
      with any other threads, what a client was sent is at every moment a gap-free, duplicate-free,
      strictly increasing prefix of what it is owed. */
  lemma {:induction false} LockedPublishersLeaveNoGap(resume: LastEventId, threads: nat, states: seq<Locked>, deeds: seq<Deed>, i: nat)
    requires IsLockedRun(resume, threads, states, deeds) && i < |states|
    requires forall j | 0 <= j < i :: !Breaks(states[j], deeds[j])
    ensures LockedInv(states[i])
    ensures states[i].net.client.sent <= Wanted(states[i].net.ours, Begin(states[i].net), |states[i].net.ours|)
    ensures Ascends(states[i].net.client.sent)
  {
    if i == 0 {
      BegunInv(resume, threads);
    } else {
      LockedPublishersLeaveNoGap(resume, threads, states, deeds, i - 1);
      DeedKeepsLockedIff(states[i - 1], deeds[i - 1]);
    }
    ServedIsPrefix(states[i].net);
  }

  lemma TheLaterCommitFirst(net: Net, once: Net, twice: Net)
    requires FeedInv(net) && OutUpTo(net, |net.ours|) && |net.ours| + 2 < UINT64
    requires net.registered && !net.dropped && |net.channel| < CHANNEL_CAPACITY
    requires once == net.(ours := net.ours + [true]) && twice == once.(ours := once.ours + [true])
    ensures ChannelInv(twice) && OutOfTurn(twice, Durable(|net.ours| + 2)) && !ChannelInv(Offered(twice, Durable(|net.ours| + 2)))
  {
    CommitKeepsFeed(net, [true]);
    CommitKeepsFeed(once, [true]);
    var n := |net.ours|;
    assert IsOurs(twice.ours, n + 1) && IsOurs(twice.ours, n + 2);
    OutOfTurnBreaksChannel(twice, Durable(n + 2));
  }

  /** When no thread owes an event any more, a live client that has emptied its channel and was not
      dropped has been sent everything it is owed, no more and no less. */
  lemma DrainedClientIsUpToDate(s: Locked)
    requires LockedInv(s) && forall t | 0 <= t < |s.owed| :: !Pending(s.owed[t])
    requires s.net.phase == Live && s.net.registered && !s.net.dropped && s.net.channel == []
    ensures s.net.client.sent == Wanted(s.net.ours, Begin(s.net), |s.net.ours|)
  {
    DrainedClientHasEverything(s.net);
  }

  lemma CommitsOne(s: Locked, t: nat)
    requires CanDo(s, WriterCommits(t, [true]))
    ensures var next := Do(s, WriterCommits(t, [true]));
            && next.net == s.net.(ours := s.net.ours + [true]) && next.locks == s.locks
            && next.owed == s.owed[t := Owed(|s.net.ours|, |s.net.ours| + 1, false)]
  {
  }

  lemma PublishedNet(s: Locked, t: nat)
    requires CanDo(s, WriterPublishes(t))
    ensures Do(s, WriterPublishes(t)).net == Offered(s.net, Durable(s.owed[t].next + 1))
  {
  }

  /** Two threads inside the lock together, as a stranded waiter can bring about, can always publish
      out of turn: both commit an event of the collection, and the second one publishes first. */
  lemma TwoInsideCanPublishOutOfTurn(s: Locked, t: nat, u: nat) returns (s2: Locked)
    requires FeedInv(s.net) && OutUpTo(s.net, |s.net.ours|) && |s.net.ours| + 2 < UINT64
    requires s.net.registered && !s.net.dropped && |s.net.channel| < CHANNEL_CAPACITY
    requires t != u && Inside(s, t) && Inside(s, u) && !Pending(s.owed[t]) && !Pending(s.owed[u])
    ensures CanDo(s, WriterCommits(t, [true]))
    ensures var s1 := Do(s, WriterCommits(t, [true])); CanDo(s1, WriterCommits(u, [true])) && s2 == Do(s1, WriterCommits(u, [true]))
    ensures CanDo(s2, WriterPublishes(u)) && OutOfTurn(s2.net, Durable(s2.owed[u].next + 1))
    ensures !ChannelInv(Do(s2, WriterPublishes(u)).net)
  {
    var s1 := Do(s, WriterCommits(t, [true]));
    CommitsOne(s, t);
    s2 := Do(s1, WriterCommits(u, [true]));
    CommitsOne(s1, u);
    TheLaterCommitFirst(s.net, s1.net, s2.net);
    PublishIs(s2, u);
    PublishedNet(s2, u);
  }
}
