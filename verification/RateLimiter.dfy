/** The fixed-window rate limiter of the operational endpoints. */
module RateLimiter {

  datatype Window = Window(count: nat, start: int)

  const MAX_KEYS: nat := 4096

  /** `rateLimiter.pruneExpired`. */
  function Pruned(requests: map<string, Window>, window: int, now: int): map<string, Window> {
    map k | k in requests && now - requests[k].start < window :: requests[k]
  }

  /** One call of `allow`. */
  datatype Verdict = Verdict(requests: map<string, Window>, granted: bool)

  function Allow(requests: map<string, Window>, limit: nat, window: int, maxKeys: nat, key: string, now: int): Verdict {
    var live := Pruned(requests, window, now);
    if key !in live then
      if maxKeys > 0 && |live| >= maxKeys then Verdict(live, false) else Verdict(live[key := Window(1, now)], true)
    else if live[key].count >= limit then Verdict(live, false)
    else Verdict(live[key := Window(live[key].count + 1, live[key].start)], true)
  }

  class Limiter {
    const limit: nat
    const window: int
    const maxKeys: nat
    var requests: map<string, Window>

    constructor (limit: int, window: int, defaultWindow: int)
      requires defaultWindow > 0
      ensures requests == map[] && this.limit >= 1 && this.window > 0 && maxKeys == MAX_KEYS
      ensures limit >= 1 ==> this.limit == limit
      ensures window > 0 ==> this.window == window
    {
      this.limit := if limit < 1 then 1 else limit;
      this.window := if window <= 0 then defaultWindow else window;
      maxKeys := MAX_KEYS;
      requests := map[];
    }

    method PruneExpired(now: int)
      modifies this
      ensures requests == Pruned(old(requests), window, now)
    {
      var keys := requests.Keys;
      ghost var was := requests;
      while keys != {}
        invariant keys <= requests.Keys <= was.Keys
        invariant forall k | k in requests :: requests[k] == was[k]
        invariant forall k | k in was && k !in keys :: k in requests <==> now - was[k].start < window
        decreases |keys|
      {
        var k :| k in keys;
        if now - requests[k].start >= window { requests := requests - {k}; }
        keys := keys - {k};
      }
    }

    method AllowRequest(key: string, now: int) returns (granted: bool)
      requires window > 0
      modifies this
      ensures Verdict(requests, granted) == Allow(old(requests), limit, window, maxKeys, key, now)
    {
      PruneExpired(now);
      if key !in requests && maxKeys > 0 && |requests| >= maxKeys { return false; }
      if key !in requests || now - requests[key].start >= window {
        requests := requests[key := Window(1, now)];
        return true;
      }
      var current := requests[key];
      if current.count >= limit { return false; }
      requests := requests[key := current.(count := current.count + 1)];
      return true;
    }
  }

  // ---------------------------------------------------------------- traces

  datatype Request = Request(key: string, at: int)

  /** A grant of the watched key, tagged with the start of the window it was counted in. */
  datatype Grant = Grant(at: int, start: int)

  datatype Trace = Trace(requests: map<string, Window>, grants: seq<Grant>)

  function Step(t: Trace, limit: nat, window: int, maxKeys: nat, watched: string, q: Request): Trace {
    var v := Allow(t.requests, limit, window, maxKeys, q.key, q.at);
    Trace(v.requests,
          if v.granted && q.key == watched && watched in v.requests
          then t.grants + [Grant(q.at, v.requests[watched].start)] else t.grants)
  }

  function Run(limit: nat, window: int, maxKeys: nat, watched: string, qs: seq<Request>): Trace {
    if qs == [] then Trace(map[], [])
    else Step(Run(limit, window, maxKeys, watched, qs[..|qs| - 1]), limit, window, maxKeys, watched, qs[|qs| - 1])
  }

  predicate Timely(qs: seq<Request>) {
    forall i, j | 0 <= i < j < |qs| :: qs[i].at <= qs[j].at
  }

  /** Grants in the half-open interval [from, to). */
  function CountIn(grants: seq<Grant>, from: int, to: int): nat {
    if grants == [] then 0
    else CountIn(grants[..|grants| - 1], from, to) + if from <= grants[|grants| - 1].at < to then 1 else 0
  }

  function CountOf(grants: seq<Grant>, start: int): nat {
    if grants == [] then 0
    else CountOf(grants[..|grants| - 1], start) + if grants[|grants| - 1].start == start then 1 else 0
  }

  /** The shape of one key's grants: windows never overlap, each is opened by a grant at its start
      and holds at most `limit`, and the table's counter for the key is the number of grants in its
      current window. */
  ghost predicate TraceInv(t: Trace, limit: nat, window: int, maxKeys: nat, watched: string, now: int) {
    && Windowed(t.grants, window, now)
    && (forall s :: CountOf(t.grants, s) <= limit)
    && (maxKeys > 0 ==> |t.requests| <= maxKeys)
    && (watched in t.requests ==>
          && t.grants != [] && t.grants[|t.grants| - 1].start == t.requests[watched].start
          && CountOf(t.grants, t.requests[watched].start) == t.requests[watched].count)
    && (watched !in t.requests ==> forall g | g in t.grants :: g.start + window <= now)
  }

  ghost predicate Windowed(grants: seq<Grant>, window: int, now: int) {
    && (forall g | g in grants :: g.start <= g.at < g.start + window && g.at <= now && Grant(g.start, g.start) in grants)
    && (forall i, j | 0 <= i < j < |grants| ::
          grants[i].start == grants[j].start || grants[i].start + window <= grants[j].start)
  }

  lemma {:induction false} CountOfNone(grants: seq<Grant>, s: int)
    requires forall g | g in grants :: g.start != s
    ensures CountOf(grants, s) == 0
  {
    if grants != [] {
      assert forall g | g in grants[..|grants| - 1] :: g in grants;
      CountOfNone(grants[..|grants| - 1], s);
      assert grants[|grants| - 1] in grants;
    }
  }

  /** Pruning forgets a window exactly when it is over, and never grows the table. */
  lemma PruneForgetsNothingLive(requests: map<string, Window>, window: int, now: int, k: string)
    ensures k in Pruned(requests, window, now) <==> k in requests && now - requests[k].start < window
    ensures k in Pruned(requests, window, now) ==> Pruned(requests, window, now)[k] == requests[k]
    ensures |Pruned(requests, window, now)| <= |requests|
  {
    var p := Pruned(requests, window, now);
    assert p.Keys <= requests.Keys;
    assert requests.Keys == p.Keys + (requests.Keys - p.Keys);
    assert |p| == |p.Keys| && |requests| == |requests.Keys|;
  }

  lemma LastStartIsLatest(grants: seq<Grant>, window: int, now: int, g: Grant)
    requires window > 0 && Windowed(grants, window, now) && g in grants
    ensures g.start <= grants[|grants| - 1].start
  {
    var i :| 0 <= i < |grants| && grants[i] == g;
    if i < |grants| - 1 {
      assert grants[i].start == grants[|grants| - 1].start || grants[i].start + window <= grants[|grants| - 1].start;
    }
  }

  lemma CountOfAppend(grants: seq<Grant>, g: Grant, s: int)
    ensures CountOf(grants + [g], s) == CountOf(grants, s) + if g.start == s then 1 else 0
  {
    assert (grants + [g])[..|grants|] == grants;
  }

  /** At `at`, all the windows `grants` opened are over. */
  ghost predicate AllOver(grants: seq<Grant>, window: int, at: int) {
    forall g | g in grants :: g.start + window <= at
  }

  lemma WindowedOpen(grants: seq<Grant>, window: int, now: int, at: int)
    requires window > 0 && Windowed(grants, window, now) && now <= at && AllOver(grants, window, at)
    ensures Windowed(grants + [Grant(at, at)], window, at)
    ensures CountOf(grants + [Grant(at, at)], at) == 1
    ensures forall s | s != at :: CountOf(grants + [Grant(at, at)], s) == CountOf(grants, s)
  {
    forall s { CountOfAppend(grants, Grant(at, at), s); }
    CountOfNone(grants, at);
  }

  lemma WindowedExtend(grants: seq<Grant>, window: int, now: int, at: int, start: int)
    requires window > 0 && Windowed(grants, window, now) && now <= at
    requires grants != [] && grants[|grants| - 1].start == start && at < start + window
    ensures Windowed(grants + [Grant(at, start)], window, at)
    ensures forall s :: CountOf(grants + [Grant(at, start)], s) == CountOf(grants, s) + if s == start then 1 else 0
  {
    forall s { CountOfAppend(grants, Grant(at, start), s); }
    var last := grants[|grants| - 1];
    assert last in grants;
  }

  lemma ExpiredIsAllOver(t: Trace, limit: nat, window: int, maxKeys: nat, watched: string, now: int, at: int)
    requires window > 0 && now <= at && TraceInv(t, limit, window, maxKeys, watched, now)
    requires watched !in Pruned(t.requests, window, at)
    ensures AllOver(t.grants, window, at)
  {
    if watched in t.requests {
      forall g | g in t.grants ensures g.start + window <= at { LastStartIsLatest(t.grants, window, now, g); }
    }
  }

  lemma TableStaysBounded(requests: map<string, Window>, limit: nat, window: int, maxKeys: nat, key: string, now: int)
    requires maxKeys > 0 && |requests| <= maxKeys
    ensures |Allow(requests, limit, window, maxKeys, key, now).requests| <= maxKeys
  {
    PruneForgetsNothingLive(requests, window, now, key);
    var live := Pruned(requests, window, now);
    var after := Allow(requests, limit, window, maxKeys, key, now).requests;
    assert after.Keys == live.Keys || after.Keys == live.Keys + {key};
    assert |after| == |after.Keys| && |live| == |live.Keys|;
  }

  /** The first grant of a new window of the watched key. */
  lemma OpenKeepsInv(t: Trace, requests: map<string, Window>, limit: nat, window: int, maxKeys: nat, watched: string, now: int, at: int)
    requires window > 0 && limit >= 1 && now <= at
    requires TraceInv(t, limit, window, maxKeys, watched, now) && AllOver(t.grants, window, at)
    requires watched in requests && requests[watched] == Window(1, at)
    requires maxKeys > 0 ==> |requests| <= maxKeys
    ensures TraceInv(Trace(requests, t.grants + [Grant(at, at)]), limit, window, maxKeys, watched, at)
  {
    WindowedOpen(t.grants, window, now, at);
  }

  /** A further grant inside the watched key's current window. */
  lemma ExtendKeepsInv(t: Trace, requests: map<string, Window>, limit: nat, window: int, maxKeys: nat, watched: string, now: int, at: int)
    requires window > 0 && now <= at && TraceInv(t, limit, window, maxKeys, watched, now)
    requires watched in t.requests && at < t.requests[watched].start + window && t.requests[watched].count < limit
    requires watched in requests && requests[watched] == Window(t.requests[watched].count + 1, t.requests[watched].start)
    requires maxKeys > 0 ==> |requests| <= maxKeys
    ensures TraceInv(Trace(requests, t.grants + [Grant(at, requests[watched].start)]), limit, window, maxKeys, watched, at)
  {
    WindowedExtend(t.grants, window, now, at, t.requests[watched].start);
  }

  /** Any step that grants the watched key nothing: its entry stays, or is pruned once over. */
  lemma OtherKeepsInv(t: Trace, requests: map<string, Window>, limit: nat, window: int, maxKeys: nat, watched: string, now: int, at: int)
    requires window > 0 && now <= at && TraceInv(t, limit, window, maxKeys, watched, now)
    requires watched in requests ==> watched in t.requests && requests[watched] == t.requests[watched]
    requires watched !in requests ==> AllOver(t.grants, window, at)
    requires maxKeys > 0 ==> |requests| <= maxKeys
    ensures TraceInv(Trace(requests, t.grants), limit, window, maxKeys, watched, at)
  {
  }

  /** What one call does to the watched key's entry. */
  lemma WatchedEntry(requests: map<string, Window>, limit: nat, window: int, maxKeys: nat, q: Request, watched: string)
    ensures var live, v := Pruned(requests, window, q.at), Allow(requests, limit, window, maxKeys, q.key, q.at);
            if !v.granted || q.key != watched then
              && (watched in v.requests <==> watched in live)
              && (watched in live ==> watched in requests && v.requests[watched] == requests[watched])
            else if watched in live then
              && watched in requests && q.at < requests[watched].start + window && requests[watched].count < limit
              && v.requests == live[watched := Window(requests[watched].count + 1, requests[watched].start)]
            else v.requests == live[watched := Window(1, q.at)]
  {
  }

  lemma StepKeepsInv(t: Trace, limit: nat, window: int, maxKeys: nat, watched: string, now: int, q: Request)
    requires window > 0 && limit >= 1 && now <= q.at
    requires TraceInv(t, limit, window, maxKeys, watched, now)
    ensures TraceInv(Step(t, limit, window, maxKeys, watched, q), limit, window, maxKeys, watched, q.at)
  {
    var live, v := Pruned(t.requests, window, q.at), Allow(t.requests, limit, window, maxKeys, q.key, q.at);
    if maxKeys > 0 { TableStaysBounded(t.requests, limit, window, maxKeys, q.key, q.at); }
    if watched !in live { ExpiredIsAllOver(t, limit, window, maxKeys, watched, now, q.at); }
    WatchedEntry(t.requests, limit, window, maxKeys, q, watched);
    if !v.granted || q.key != watched {
      OtherKeepsInv(t, v.requests, limit, window, maxKeys, watched, now, q.at);
    } else if watched in live {
      ExtendKeepsInv(t, v.requests, limit, window, maxKeys, watched, now, q.at);
    } else {
      OpenKeepsInv(t, v.requests, limit, window, maxKeys, watched, now, q.at);
    }
  }

  lemma {:induction false} RunKeepsInv(limit: nat, window: int, maxKeys: nat, watched: string, qs: seq<Request>, now: int)
    requires window > 0 && limit >= 1 && Timely(qs)
    requires qs != [] ==> now == qs[|qs| - 1].at
    ensures TraceInv(Run(limit, window, maxKeys, watched, qs), limit, window, maxKeys, watched, now)
  {
    if qs != [] {
      var before := qs[..|qs| - 1];
      RunKeepsInv(limit, window, maxKeys, watched, before, if before == [] then now else before[|before| - 1].at);
      StepKeepsInv(Run(limit, window, maxKeys, watched, before), limit, window, maxKeys, watched,
                   if before == [] then now else before[|before| - 1].at, qs[|qs| - 1]);
    }
  }

  // ---------------------------------------------------------------- theorems

  /** In every trace with non-decreasing times no window holds more than `limit` grants, grants
      tagged with different windows are a window length apart, and the table stays bounded. */
  lemma AtMostLimitPerWindow(limit: nat, window: int, maxKeys: nat, watched: string, qs: seq<Request>, start: int)
    requires window > 0 && limit >= 1 && Timely(qs)
    ensures var t := Run(limit, window, maxKeys, watched, qs);
            && CountOf(t.grants, start) <= limit
            && (forall g | g in t.grants :: g.start <= g.at < g.start + window)
            && (forall i, j | 0 <= i < j < |t.grants| && t.grants[i].start != t.grants[j].start ::
                  t.grants[i].start + window <= t.grants[j].start)
            && (maxKeys > 0 ==> |t.requests| <= maxKeys)
  {
    RunKeepsInv(limit, window, maxKeys, watched, qs, if qs == [] then 0 else qs[|qs| - 1].at);
  }

  /** Grants inside an interval all carry one of two starts, and a grant of the first start lies
      outside of it. */
  lemma {:induction false} CountSplits(grants: seq<Grant>, from: int, to: int, first: int, second: int, outside: nat)
    requires first != second
    requires forall g | g in grants && from <= g.at < to :: g.start == first || g.start == second
    requires outside <= 1 && (outside == 1 ==> exists g | g in grants :: g.start == first && !(from <= g.at < to))
    ensures CountIn(grants, from, to) + outside <= CountOf(grants, first) + CountOf(grants, second)
  {
    if grants != [] {
      var front, last := grants[..|grants| - 1], grants[|grants| - 1];
      assert grants == front + [last];
      assert last in grants;
      var rest := if last.start == first && !(from <= last.at < to) then 0 else outside;
      CountSplits(front, from, to, first, second, rest);
    }
  }

  /** A half-open interval as long as a window meets at most two windows, and never the opening
      grant of the earlier one: at most `2 * limit - 1` grants of a key fall into it. */
  lemma AtMostTwiceTheLimit(limit: nat, window: int, maxKeys: nat, watched: string, qs: seq<Request>, from: int)
    requires window > 0 && limit >= 1 && Timely(qs)
    ensures CountIn(Run(limit, window, maxKeys, watched, qs).grants, from, from + window) <= 2 * limit - 1
  {
    var now := if qs == [] then 0 else qs[|qs| - 1].at;
    RunKeepsInv(limit, window, maxKeys, watched, qs, now);
    IntervalBound(Run(limit, window, maxKeys, watched, qs).grants, limit, window, now, from);
  }

  lemma IntervalBound(grants: seq<Grant>, limit: nat, window: int, now: int, from: int)
    requires window > 0 && limit >= 1 && Windowed(grants, window, now)
    requires forall s :: CountOf(grants, s) <= limit
    ensures CountIn(grants, from, from + window) <= 2 * limit - 1
  {
    var to := from + window;
    if early :| early in grants && from <= early.at < to && early.start < from {
      if late :| late in grants && from <= late.at < to && late.start != early.start {
        forall g | g in grants && from <= g.at < to ensures g.start == early.start || g.start == late.start {
          StartsApart(grants, window, now, g, early);
          StartsApart(grants, window, now, g, late);
          StartsApart(grants, window, now, early, late);
        }
        assert Grant(early.start, early.start) in grants;
        CountSplits(grants, from, to, early.start, late.start, 1);
      } else {
        assert Grant(early.start, early.start) in grants;
        CountSplits(grants, from, to, early.start, NeverOpened(grants, early.start), 1);
        CountOfNone(grants, NeverOpened(grants, early.start));
      }
    } else if any :| any in grants && from <= any.at < to {
      forall g | g in grants && from <= g.at < to ensures g.start == any.start {
        StartsApart(grants, window, now, g, any);
      }
      CountSplits(grants, from, to, any.start, NeverOpened(grants, any.start), 0);
      CountOfNone(grants, NeverOpened(grants, any.start));
    } else {
      CountInNone(grants, from, to);
    }
  }

  lemma StartsApart(grants: seq<Grant>, window: int, now: int, g: Grant, h: Grant)
    requires Windowed(grants, window, now) && g in grants && h in grants
    ensures g.start == h.start || g.start + window <= h.start || h.start + window <= g.start
  {
    var i :| 0 <= i < |grants| && grants[i] == g;
    var j :| 0 <= j < |grants| && grants[j] == h;
  }

  /** Some time, other than `s`, at which no window starts. */
  function NeverOpened(grants: seq<Grant>, s: int): (r: int)
    ensures r > s && forall g | g in grants :: g.start < r
  {
    if grants == [] then s + 1
    else
      var r := NeverOpened(grants[..|grants| - 1], s);
      assert grants == grants[..|grants| - 1] + [grants[|grants| - 1]];
      if grants[|grants| - 1].start < r then r else grants[|grants| - 1].start + 1
  }

  lemma {:induction false} CountInNone(grants: seq<Grant>, from: int, to: int)
    requires forall g | g in grants :: !(from <= g.at < to)
    ensures CountIn(grants, from, to) == 0
  {
    if grants != [] {
      assert forall g | g in grants[..|grants| - 1] :: g in grants;
      CountInNone(grants[..|grants| - 1], from, to);
      assert grants[|grants| - 1] in grants;
    }
  }

  // ---------------------------------------------------------------- the bound is met

  /** `n` times the same element. */
  function Times<T>(x: T, n: nat): seq<T> {
    if n == 0 then [] else Times(x, n - 1) + [x]
  }

  lemma {:induction false} CountInTimes(grants: seq<Grant>, g: Grant, n: nat, from: int, to: int)
    requires from <= g.at < to
    ensures CountIn(grants + Times(g, n), from, to) == CountIn(grants, from, to) + n
  {
    if n == 0 {
      assert grants + [] == grants;
    } else {
      CountInTimes(grants, g, n - 1, from, to);
      assert (grants + Times(g, n))[..|grants| + |Times(g, n)| - 1] == grants + Times(g, n - 1);
    }
  }

  /** A run, known only by how it extends. */
  ghost predicate Extends(run: seq<Request> -> Trace, step: (Trace, Request) -> Trace) {
    forall qs, q {:trigger run(qs + [q])} :: run(qs + [q]) == step(run(qs), q)
  }

  /** A request that a window with `room` for it grants. */
  ghost predicate GrantsWithin(step: (Trace, Request) -> Trace, q: Request, start: int, room: nat) {
    forall t: Trace, c: nat | t.requests == map[q.key := Window(c, start)] && c < room ::
      step(t, q) == Trace(map[q.key := Window(c + 1, start)], t.grants + [Grant(q.at, start)])
  }

  /** While its window lasts and has room, a key alone in the table is granted every request. */
  lemma {:induction false} BurstIsGranted(run: seq<Request> -> Trace, step: (Trace, Request) -> Trace, room: nat,
      qs: seq<Request>, q: Request, n: nat, c: nat, start: int)
    requires Extends(run, step) && GrantsWithin(step, q, start, room)
    requires run(qs).requests == map[q.key := Window(c, start)] && c + n <= room
    ensures run(qs + Times(q, n)) == Trace(map[q.key := Window(c + n, start)], run(qs).grants + Times(Grant(q.at, start), n))
  {
    if n == 0 {
      assert qs + [] == qs && run(qs).grants + [] == run(qs).grants;
    } else {
      BurstIsGranted(run, step, room, qs, q, n - 1, c, start);
      assert qs + Times(q, n) == (qs + Times(q, n - 1)) + [q];
      assert run(qs).grants + Times(Grant(q.at, start), n) == (run(qs).grants + Times(Grant(q.at, start), n - 1)) + [Grant(q.at, start)];
    }
  }

  lemma WindowGrants(limit: nat, window: int, maxKeys: nat, q: Request, start: int)
    requires q.at - start < window
    ensures GrantsWithin((t, p) => Step(t, limit, window, maxKeys, q.key, p), q, start, limit)
  {
    forall t: Trace, c: nat | t.requests == map[q.key := Window(c, start)] && c < limit
      ensures Step(t, limit, window, maxKeys, q.key, q) == Trace(map[q.key := Window(c + 1, start)], t.grants + [Grant(q.at, start)])
    {
      assert Pruned(t.requests, window, q.at) == t.requests;
    }
  }

  lemma RunExtends(limit: nat, window: int, maxKeys: nat, watched: string)
    ensures Extends(qs => Run(limit, window, maxKeys, watched, qs), (t, p) => Step(t, limit, window, maxKeys, watched, p))
  {
    forall qs: seq<Request>, q: Request
      ensures Run(limit, window, maxKeys, watched, qs + [q]) == Step(Run(limit, window, maxKeys, watched, qs), limit, window, maxKeys, watched, q)
    {
      assert (qs + [q])[..|qs|] == qs;
    }
  }

  lemma NewWindowGrant(t: Trace, limit: nat, window: int, maxKeys: nat, q: Request)
    requires Pruned(t.requests, window, q.at) == map[]
    ensures Step(t, limit, window, maxKeys, q.key, q) == Trace(map[q.key := Window(1, q.at)], t.grants + [Grant(q.at, q.at)])
  {
  }

  /** What the worst trace is granted, for any run that extends and grants as the limiter does. */
  lemma WorstTrace(run: seq<Request> -> Trace, step: (Trace, Request) -> Trace, limit: nat, early: Request, late: Request, after: Request)
    returns (qs: seq<Request>, grants: seq<Grant>)
    requires limit >= 1 && early.key == late.key == after.key && early.at == 0
    requires Extends(run, step) && GrantsWithin(step, late, 0, limit) && GrantsWithin(step, after, after.at, limit)
    requires run([]) == Trace(map[], [])
    requires step(Trace(map[], []), early) == Trace(map[early.key := Window(1, 0)], [Grant(0, 0)])
    requires forall t: Trace, c: nat | t.requests == map[early.key := Window(c, 0)] ::
               step(t, after) == Trace(map[early.key := Window(1, after.at)], t.grants + [Grant(after.at, after.at)])
    ensures qs == [early] + Times(late, limit - 1) + [after] + Times(after, limit - 1) && run(qs).grants == grants
    ensures grants == [Grant(0, 0)] + Times(Grant(late.at, 0), limit - 1) + [Grant(after.at, after.at)] + Times(Grant(after.at, after.at), limit - 1)
  {
    assert [] + [early] == [early];
    assert run([early]) == step(run([]), early);
    BurstIsGranted(run, step, limit, [early], late, limit - 1, 1, 0);
    var q2 := [early] + Times(late, limit - 1);
    assert run(q2 + [after]) == step(run(q2), after);
    BurstIsGranted(run, step, limit, q2 + [after], after, limit - 1, 1, after.at);
    qs := q2 + [after] + Times(after, limit - 1);
    grants := run(qs).grants;
  }

  lemma WorstCount(limit: nat, window: int, g1: seq<Grant>, g2: seq<Grant>)
    requires limit >= 1 && window >= 2
    requires g1 == [Grant(0, 0)] + Times(Grant(window - 1, 0), limit - 1)
    requires g2 == g1 + [Grant(window, window)]
    ensures CountIn(g2 + Times(Grant(window, window), limit - 1), window - 1, window - 1 + window) == 2 * limit - 1
  {
    var from, to := window - 1, window - 1 + window;
    assert [Grant(0, 0)][..0] == [];
    assert CountIn([Grant(0, 0)], from, to) == 0;
    CountInTimes([Grant(0, 0)], Grant(window - 1, 0), limit - 1, from, to);
    assert g2[..|g1|] == g1;
    CountInTimes(g2, Grant(window, window), limit - 1, from, to);
  }

  lemma {:induction false} TimesAre<T>(x: T, n: nat)
    ensures |Times(x, n)| == n && forall i | 0 <= i < n :: Times(x, n)[i] == x
  {
    if n > 0 { TimesAre(x, n - 1); }
  }

  lemma WorstIsTimely(early: Request, late: Request, after: Request, n: nat)
    requires early.at <= late.at <= after.at
    ensures Timely([early] + Times(late, n) + [after] + Times(after, n))
  {
    TimesAre(late, n);
    TimesAre(after, n);
  }

  lemma AfterExpiry(limit: nat, window: int, maxKeys: nat, q: Request, t: Trace, c: nat)
    requires q.at == window && window > 0 && t.requests == map[q.key := Window(c, 0)]
    ensures Step(t, limit, window, maxKeys, q.key, q) == Trace(map[q.key := Window(1, window)], t.grants + [Grant(window, window)])
  {
    assert Pruned(t.requests, window, window) == map[];
    NewWindowGrant(t, limit, window, maxKeys, q);
  }

  lemma FirstEver(limit: nat, window: int, maxKeys: nat, q: Request)
    requires q.at == 0
    ensures Step(Trace(map[], []), limit, window, maxKeys, q.key, q) == Trace(map[q.key := Window(1, 0)], [Grant(0, 0)])
  {
    assert Pruned(map[], window, 0) == map[];
    NewWindowGrant(Trace(map[], []), limit, window, maxKeys, q);
  }

  /** The limiter runs, extends and grants that way. */
  lemma LimiterRun(limit: nat, window: int, maxKeys: nat, early: Request, late: Request, after: Request)
    returns (run: seq<Request> -> Trace, step: (Trace, Request) -> Trace)
    requires limit >= 1 && window >= 2 && early.key == late.key == after.key
    requires early.at == 0 && late.at == window - 1 && after.at == window
    ensures forall qs :: run(qs) == Run(limit, window, maxKeys, early.key, qs)
    ensures Extends(run, step) && GrantsWithin(step, late, 0, limit) && GrantsWithin(step, after, window, limit)
    ensures run([]) == Trace(map[], [])
    ensures step(Trace(map[], []), early) == Trace(map[early.key := Window(1, 0)], [Grant(0, 0)])
    ensures forall t: Trace, c: nat | t.requests == map[early.key := Window(c, 0)] ::
              step(t, after) == Trace(map[early.key := Window(1, after.at)], t.grants + [Grant(after.at, after.at)])
  {
    run := ps => Run(limit, window, maxKeys, early.key, ps);
    step := (t, p) => Step(t, limit, window, maxKeys, early.key, p);
    RunExtends(limit, window, maxKeys, early.key);
    WindowGrants(limit, window, maxKeys, late, 0);
    WindowGrants(limit, window, maxKeys, after, window);
    FirstEver(limit, window, maxKeys, early);
    forall t: Trace, c: nat | t.requests == map[early.key := Window(c, 0)]
      ensures step(t, after) == Trace(map[early.key := Window(1, after.at)], t.grants + [Grant(after.at, after.at)])
    {
      AfterExpiry(limit, window, maxKeys, after, t, c);
    }
  }

  lemma WorstRun(limit: nat, window: int, maxKeys: nat, early: Request, late: Request, after: Request)
    returns (qs: seq<Request>, grants: seq<Grant>)
    requires limit >= 1 && window >= 2 && early.key == late.key == after.key
    requires early.at == 0 && late.at == window - 1 && after.at == window
    ensures grants == Run(limit, window, maxKeys, early.key, qs).grants
    ensures qs == [early] + Times(late, limit - 1) + [after] + Times(after, limit - 1)
    ensures grants == [Grant(0, 0)] + Times(Grant(window - 1, 0), limit - 1) + [Grant(window, window)] + Times(Grant(window, window), limit - 1)
  {
    var run, step := LimiterRun(limit, window, maxKeys, early, late, after);
    qs, grants := WorstTrace(run, step, limit, early, late, after);
    assert run(qs).grants == grants;
  }

  /** For every limit, and windows of at least two time units, some trace meets the interval bound:
      one request opens a window, `limit - 1` come at its end and `limit` just after it. */
  lemma IntervalBoundIsMet(limit: nat, window: int, maxKeys: nat, key: string) returns (qs: seq<Request>)
    requires limit >= 1 && window >= 2
    ensures Timely(qs)
    ensures CountIn(Run(limit, window, maxKeys, key, qs).grants, window - 1, window - 1 + window) == 2 * limit - 1
  {
    var early, late, after := Request(key, 0), Request(key, window - 1), Request(key, window);
    var grants: seq<Grant>;
    qs, grants := WorstRun(limit, window, maxKeys, early, late, after);
    WorstIsTimely(early, late, after, limit - 1);
    var g1 := [Grant(0, 0)] + Times(Grant(window - 1, 0), limit - 1);
    WorstCount(limit, window, g1, g1 + [Grant(window, window)]);
  }

  /** A refused key has used up its current window, or the table is full of other live windows. */
  lemma RefusedOnlyWhenFull(limit: nat, window: int, maxKeys: nat, qs: seq<Request>, q: Request)
    requires window > 0 && limit >= 1 && Timely(qs + [q])
    ensures var t := Run(limit, window, maxKeys, q.key, qs);
            !Allow(t.requests, limit, window, maxKeys, q.key, q.at).granted <==>
              (exists g | g in t.grants :: q.at < g.start + window && CountOf(t.grants, g.start) == limit)
              || ((forall g | g in t.grants :: g.start + window <= q.at)
                  && 0 < maxKeys <= |Pruned(t.requests, window, q.at)|)
  {
    assert forall i | 0 <= i < |qs| :: qs[i] == (qs + [q])[i];
    assert (qs + [q])[|qs|] == q;
    var t := Run(limit, window, maxKeys, q.key, qs);
    var now := if qs == [] then q.at else qs[|qs| - 1].at;
    RunKeepsInv(limit, window, maxKeys, q.key, qs, now);
    var live := Pruned(t.requests, window, q.at);
    if q.key !in live {
      ExpiredIsAllOver(t, limit, window, maxKeys, q.key, now, q.at);
    } else {
      var last := t.grants[|t.grants| - 1];
      assert last in t.grants && q.at < last.start + window;
      forall g | g in t.grants && q.at < g.start + window ensures g.start == last.start {
        LastStartIsLatest(t.grants, window, now, g);
        StartsApart(t.grants, window, now, g, last);
      }
    }
  }
}
