/** The event sequence, the bounded log and the webhook outbox as one recorded event
    changes them, and what they say about the whole history. */
module EventLog {
  import opened ByteOrder
  import opened Documents
  import opened Storage

  const MAX_RETAINED_EVENTS: nat := 1000

  predicate Smallest(k: nat, s: set<nat>) {
    k in s && forall j | j in s :: k <= j
  }

  lemma {:induction false} SmallestExists(s: set<nat>)
    requires s != {}
    ensures exists k :: Smallest(k, s)
  {
    var x :| x in s;
    if s == {x} {
      assert Smallest(x, s);
    } else {
      SmallestExists(s - {x});
      var k :| Smallest(k, s - {x});
      assert forall j | j in s :: j == x || j in s - {x};
      assert Smallest(if x < k then x else k, s);
    }
  }

  /** `Cursor.First` over `uint64Key` keys, whose byte order is numeric (Keys.Uint64KeyOrder). */
  function FirstKey(s: set<nat>): (k: nat)
    requires s != {}
    ensures Smallest(k, s)
  {
    SmallestExists(s);
    var k :| k in s && forall j | j in s :: k <= j;
    k
  }

  /** `trimEventLogTx`. */
  function Trim(log: map<nat, Event>): map<nat, Event>
    decreases |log|
  {
    if |log| <= MAX_RETAINED_EVENTS then log
    else
      assert log != map[];
      Trim(log - {FirstKey(log.Keys)})
  }

  /** `recordEventTx`. */
  function Record(v: Events, action: Action, c: Collection, id: Id, d: Option<Doc>, now: Time): Events {
    var e := Event(v.last + 1, action, c, id, d);
    Events(
      v.last + 1,
      Trim(v.log[e.seqno := e]),
      v.outbox[e.seqno := Delivery(e, Pending, 0, 0, now)],
      v.history + [e]
    )
  }

  // ---------------------------------------------------------------- the log

  /** One below the oldest retained number: the newest `min(n, 1000)` events are kept. */
  function Horizon(n: nat): nat {
    if n > MAX_RETAINED_EVENTS then n - MAX_RETAINED_EVENTS else 0
  }

  /** The log holds exactly the events numbered above `low`, up to the newest. */
  ghost predicate HoldsSuffix(log: map<nat, Event>, history: seq<Event>, low: nat) {
    forall k: nat :: (k in log <==> low < k <= |history|) && (k in log ==> log[k] == history[k - 1])
  }

  /** Events are numbered 1..n without gaps, the log is exactly the newest min(n, 1000) of them,
      and the outbox refers only to committed events. */
  ghost predicate LogInv(v: Events) {
    && v.last == |v.history|
    && (forall i | 0 <= i < |v.history| :: v.history[i].seqno == i + 1)
    && HoldsSuffix(v.log, v.history, Horizon(v.last))
    && (forall k | k in v.outbox :: 1 <= k <= v.last && v.outbox[k].event == v.history[k - 1])
  }

  lemma {:induction false} SuffixSize(log: map<nat, Event>, history: seq<Event>, low: nat)
    requires low <= |history| && HoldsSuffix(log, history, low)
    ensures |log| == |history| - low
    decreases |history|
  {
    if low == |history| {
      assert log == map[];
    } else {
      var n := |history|;
      assert n in log;
      SuffixSize(log - {n}, history[..n - 1], low);
    }
  }

  lemma FirstOfSuffix(log: map<nat, Event>, history: seq<Event>, low: nat)
    requires low < |history| && HoldsSuffix(log, history, low)
    ensures log.Keys != {} && FirstKey(log.Keys) == low + 1
    ensures HoldsSuffix(log - {low + 1}, history, low + 1)
  {
    assert low + 1 in log.Keys;
    assert Smallest(FirstKey(log.Keys), log.Keys);
  }

  lemma TrimOnce(log: map<nat, Event>)
    requires |log| == MAX_RETAINED_EVENTS + 1 && log.Keys != {}
    ensures Trim(log) == log - {FirstKey(log.Keys)}
  {
    var k := FirstKey(log.Keys);
    var rest := log - {k};
    assert |rest| == MAX_RETAINED_EVENTS by {
      assert |log| == |log.Keys| && |rest| == |rest.Keys|;
      assert rest.Keys == log.Keys - {k};
    }
  }

  lemma TrimSuffix(log: map<nat, Event>, history: seq<Event>, low: nat)
    requires low <= |history| <= low + MAX_RETAINED_EVENTS + 1 && HoldsSuffix(log, history, low)
    ensures HoldsSuffix(Trim(log), history, if |history| - low <= MAX_RETAINED_EVENTS then low else low + 1)
  {
    SuffixSize(log, history, low);
    if |history| - low > MAX_RETAINED_EVENTS {
      FirstOfSuffix(log, history, low);
      TrimOnce(log);
    }
  }

  lemma AppendSuffix(log: map<nat, Event>, history: seq<Event>, low: nat, e: Event)
    requires low <= |history| && HoldsSuffix(log, history, low)
    ensures HoldsSuffix(log[|history| + 1 := e], history + [e], low)
  {
  }

  lemma LogFromParts(v: Events, e: Event, log: map<nat, Event>, now: Time)
    requires LogInv(v) && e.seqno == v.last + 1
    requires HoldsSuffix(log, v.history + [e], Horizon(e.seqno))
    ensures LogInv(Events(e.seqno, log, v.outbox[e.seqno := Delivery(e, Pending, 0, 0, now)], v.history + [e]))
  {
  }

  /** Recording keeps the numbering gap-free and the log the newest contiguous suffix. */
  lemma RecordKeepsLog(v: Events, action: Action, c: Collection, id: Id, d: Option<Doc>, now: Time)
    requires LogInv(v)
    ensures LogInv(Record(v, action, c, id, d, now))
  {
    var e := Event(v.last + 1, action, c, id, d);
    AppendSuffix(v.log, v.history, Horizon(v.last), e);
    TrimSuffix(v.log[e.seqno := e], v.history + [e], Horizon(v.last));
    LogFromParts(v, e, Trim(v.log[e.seqno := e]), now);
  }

  /** What committing does to the stored events: numbers, history and outbox only grow, old records
      stay as they are, and every new number has a fresh pending record. */
  ghost predicate Extends(v: Events, next: Events) {
    && v.last <= next.last && v.history <= next.history
    && (forall k | k in v.outbox :: k in next.outbox && next.outbox[k] == v.outbox[k])
    && (forall k | v.last < k <= next.last :: k in next.outbox && next.outbox[k].status == Pending && next.outbox[k].attempts == 0)
    && (forall k | k in next.outbox :: k in v.outbox || k > v.last)
  }

  lemma ExtendsTransitive(u: Events, v: Events, w: Events)
    requires Extends(u, v) && Extends(v, w)
    ensures Extends(u, w)
  {
  }

  lemma RecordExtends(v: Events, action: Action, c: Collection, id: Id, d: Option<Doc>, now: Time)
    requires LogInv(v)
    ensures Extends(v, Record(v, action, c, id, d, now))
  {
  }

  // ---------------------------------------------------------------- the history

  /** What a client holds after applying the events in order to nothing. */
  function Fold(history: seq<Event>): map<DocKey, Doc> {
    if history == [] then map[]
    else
      var e := history[|history| - 1];
      var before := Fold(history[..|history| - 1]);
      if e.action == Delete || e.doc.None? then before - {DocKey(e.collection, e.id)}
      else before[DocKey(e.collection, e.id) := e.doc.value]
  }

  /** Every insert found its document absent, every update and delete found it present. */
  ghost predicate WellActed(history: seq<Event>) {
    history == []
    || (var e, before := history[|history| - 1], history[..|history| - 1];
        && WellActed(before)
        && (e.action == Insert <==> DocKey(e.collection, e.id) !in Fold(before))
        && (e.action == Delete <==> e.doc.None?))
  }

  /** The history folds to exactly the stored documents. */
  ghost predicate FoldsTo(history: seq<Event>, docs: map<Collection, map<Id, Doc>>) {
    && (forall k | k in Fold(history) :: Live(docs, k.collection, k.id) && docs[k.collection][k.id] == Fold(history)[k])
    && (forall c, id | Live(docs, c, id) :: DocKey(c, id) in Fold(history))
  }

  ghost predicate HistoryInv(docs: map<Collection, map<Id, Doc>>, history: seq<Event>) {
    FoldsTo(history, docs) && WellActed(history)
  }

  lemma FoldStep(docs: map<Collection, map<Id, Doc>>, folded: map<DocKey, Doc>, e: Event, folded': map<DocKey, Doc>)
    requires e.collection in docs
    requires forall k | k in folded :: Live(docs, k.collection, k.id) && docs[k.collection][k.id] == folded[k]
    requires forall c, id | Live(docs, c, id) :: DocKey(c, id) in folded
    requires folded' == if e.doc.None? then folded - {DocKey(e.collection, e.id)} else folded[DocKey(e.collection, e.id) := e.doc.value]
    ensures var docs' := docs[e.collection := Replaced(docs[e.collection], e.id, e.doc)];
            && (forall k | k in folded' :: Live(docs', k.collection, k.id) && docs'[k.collection][k.id] == folded'[k])
            && (forall c, id | Live(docs', c, id) :: DocKey(c, id) in folded')
  {
    forall k | k in folded' && k != DocKey(e.collection, e.id) ensures k in folded && (k.collection != e.collection || k.id != e.id) {
      assert k == DocKey(k.collection, k.id);
    }
  }

  lemma HistoryStep(docs: map<Collection, map<Id, Doc>>, history: seq<Event>, e: Event)
    requires HistoryInv(docs, history) && e.collection in docs
    requires e.action == Insert <==> e.id !in docs[e.collection]
    requires e.action == Delete <==> e.doc.None?
    ensures HistoryInv(docs[e.collection := Replaced(docs[e.collection], e.id, e.doc)], history + [e])
  {
    var h' := history + [e];
    assert h'[..|h'| - 1] == history && h'[|h'| - 1] == e;
    assert DocKey(e.collection, e.id) in Fold(history) <==> e.id in docs[e.collection];
    FoldStep(docs, Fold(history), e, Fold(h'));
  }
}
