/** The cache of open database handles: `getDB` with its eviction loop, `DeleteDatabase` and
    `Close`, as critical sections of the store's mutex that may interleave in any order. */
module HandleCache {
  import opened ByteOrder

  /** A `DBHandle`: still active, its bbolt file still open, and when `getDB` last returned it. */
  datatype Entry = Entry(name: string, active: bool, open: bool, lastUsed: int)

  /** `handles` holds every handle ever made, by identity; `dbs` is the store's map. `swapped` are
      the handles `Close` took out of the map and has yet to mark, `deleting` the names of
      `DeleteDatabase` calls between their two critical sections. */
  datatype Cache = Cache(handles: seq<Entry>, dbs: map<string, nat>, swapped: set<nat>, deleting: multiset<string>)

  ghost predicate Sound(c: Cache) {
    && (forall n | n in c.dbs :: c.dbs[n] < |c.handles| && c.handles[c.dbs[n]].name == n)
    && (forall i | i in c.swapped :: i < |c.handles|)
    && (forall i | 0 <= i < |c.handles| :: c.handles[i].active ==> c.handles[i].open)
  }

  function Update(c: Cache, h: nat, e: Entry): Cache
    requires h < |c.handles|
  {
    c.(handles := c.handles[h := e])
  }

  function Insert(c: Cache, name: string, e: Entry): Cache {
    c.(handles := c.handles + [e], dbs := c.dbs[name := |c.handles|])
  }

  predicate Oldest(c: Cache, name: string)
    requires forall n | n in c.dbs :: c.dbs[n] < |c.handles|
  {
    name in c.dbs && forall n | n in c.dbs :: c.handles[c.dbs[name]].lastUsed <= c.handles[c.dbs[n]].lastUsed
  }

  // ---------------------------------------------------------------- getDB without interference

  class Store {
    const cacheEntries: int
    var handles: seq<Entry>
    var dbs: map<string, nat>

    ghost predicate Valid()
      reads this
    {
      Sound(Cache(handles, dbs, {}, multiset{})) && "" !in dbs
    }

    /** The scan of the map, which Go iterates in an arbitrary order. */
    method FindOldest() returns (oldest: string)
      requires Valid() && dbs != map[]
      ensures Oldest(Cache(handles, dbs, {}, multiset{}), oldest)
    {
      oldest := "";
      var oldestTime := 0;
      var rest := dbs.Keys;
      while rest != {}
        invariant rest <= dbs.Keys
        invariant oldest == "" <==> rest == dbs.Keys
        invariant oldest != "" ==> oldest in dbs && oldestTime == handles[dbs[oldest]].lastUsed
        invariant oldest != "" ==> forall n | n in dbs && n !in rest :: oldestTime <= handles[dbs[n]].lastUsed
        decreases |rest|
      {
        var name :| name in rest;
        var t := handles[dbs[name]].lastUsed;
        if oldest == "" || t < oldestTime {
          oldest := name;
          oldestTime := t;
        }
        rest := rest - {name};
        assert name in dbs.Keys && name !in rest;
      }
    }

    method EvictOldest() returns (evicted: string)
      requires Valid() && dbs != map[]
      modifies this
      ensures Valid() && Oldest(Cache(old(handles), old(dbs), {}, multiset{}), evicted)
      ensures dbs == old(dbs) - {evicted}
      ensures handles == old(handles)[old(dbs)[evicted] := old(handles)[old(dbs)[evicted]].(active := false, open := false)]
    {
      evicted := FindOldest();
      var h := dbs[evicted];
      dbs := dbs - {evicted};
      handles := handles[h := handles[h].(active := false)];
      handles := handles[h := handles[h].(open := false)];
    }

    /** The eviction loop. */
    method MakeRoom()
      requires Valid()
      modifies this
      ensures Valid() && |handles| == |old(handles)|
      ensures cacheEntries > 0 ==> |dbs| < cacheEntries
      ensures cacheEntries <= 0 || |old(dbs)| < cacheEntries ==> dbs == old(dbs) && handles == old(handles)
      ensures MostRecentKept(old(handles), old(dbs), handles, dbs)
    {
      while cacheEntries > 0 && |dbs| >= cacheEntries
        invariant Valid() && |handles| == |old(handles)|
        invariant cacheEntries <= 0 || |old(dbs)| < cacheEntries ==> dbs == old(dbs) && handles == old(handles)
        invariant MostRecentKept(old(handles), old(dbs), handles, dbs)
        decreases |dbs|
      {
        assert dbs != map[];
        ghost var h1, d1 := handles, dbs;
        var evicted := EvictOldest();
        EvictionKeeps(old(handles), old(dbs), h1, d1, handles, evicted);
      }
    }

    /** `getDB`: `None` stands for ErrNotFound. A hit only touches the handle; a miss opens a new
        one after evicting what it must. */
    method GetDB(name: string, now: int) returns (h: Option<nat>)
      requires Valid() && name != ""
      modifies this
      ensures Valid()
      ensures h.None? <==> name in old(dbs) && !old(handles)[old(dbs)[name]].active
      ensures h.None? ==> unchanged(this)
      ensures h.Some? ==> name in dbs && dbs[name] == h.value && h.value < |handles| && handles[h.value] == Entry(name, true, true, now)
      ensures h.Some? && name in old(dbs) ==> dbs == old(dbs) && handles == old(handles)[h.value := handles[h.value]]
      ensures name !in old(dbs) ==> h == Some(|old(handles)|) && |handles| == |old(handles)| + 1
      ensures name !in old(dbs) && cacheEntries > 0 ==> |dbs| <= cacheEntries
      ensures name !in old(dbs) && (cacheEntries <= 0 || |old(dbs)| < cacheEntries) ==> dbs == old(dbs)[name := |old(handles)|]
      ensures name !in old(dbs) ==> MostRecentKept(old(handles), old(dbs), handles[..|old(handles)|], dbs - {name})
    {
      if name in dbs {
        var cached := dbs[name];
        if !handles[cached].active { return None; }
        handles := handles[cached := handles[cached].(lastUsed := now)];
        return Some(cached);
      }
      MakeRoom();
      InsertionIsSound(handles, dbs, name, now);
      handles := handles + [Entry(name, true, true, now)];
      dbs := dbs[name := |handles| - 1];
      h := Some(|handles| - 1);
    }
  }

  /** The entries of `dbs` are the most recently used of `dbs0`, untouched; the others were marked
      and closed. */
  ghost predicate MostRecentKept(handles0: seq<Entry>, dbs0: map<string, nat>, handles: seq<Entry>, dbs: map<string, nat>) {
    && |handles| == |handles0|
    && (forall n | n in dbs0 :: dbs0[n] < |handles0|)
    && (forall n | n in dbs :: n in dbs0 && dbs[n] == dbs0[n] && handles[dbs[n]] == handles0[dbs[n]])
    && (forall n, m | n in dbs0 && n !in dbs && m in dbs :: handles0[dbs0[n]].lastUsed <= handles0[dbs0[m]].lastUsed)
    && (forall n | n in dbs0 && n !in dbs :: !handles[dbs0[n]].active && !handles[dbs0[n]].open)
  }

  lemma InsertionIsSound(handles: seq<Entry>, dbs: map<string, nat>, name: string, now: int)
    requires Sound(Cache(handles, dbs, {}, multiset{})) && name !in dbs
    ensures Sound(Cache(handles + [Entry(name, true, true, now)], dbs[name := |handles|], {}, multiset{}))
    ensures (handles + [Entry(name, true, true, now)])[..|handles|] == handles
    ensures dbs[name := |handles|] - {name} == dbs && |dbs[name := |handles|]| == |dbs| + 1
  {
    var d := dbs[name := |handles|];
    assert d.Keys == dbs.Keys + {name} && |d| == |d.Keys| && |dbs| == |dbs.Keys|;
  }

  lemma EvictionKeeps(handles0: seq<Entry>, dbs0: map<string, nat>, handles: seq<Entry>, dbs: map<string, nat>,
      after: seq<Entry>, evicted: string)
    requires MostRecentKept(handles0, dbs0, handles, dbs)
    requires Sound(Cache(handles, dbs, {}, multiset{})) && Oldest(Cache(handles, dbs, {}, multiset{}), evicted)
    requires after == handles[dbs[evicted] := handles[dbs[evicted]].(active := false, open := false)]
    ensures MostRecentKept(handles0, dbs0, after, dbs - {evicted})
  {
  }

  // ---------------------------------------------------------------- critical sections, interleaved

  /** The critical sections. `Touch`, `Evict`, `Shut` and `Open` are those of `getDB`. An evicted
      handle is shut after the store's mutex is released. A hit looks the handle up first and touches
      it in a section of the handle's own, when it may have left the map; it is refused once marked.
      `StartDelete` and `FinishDelete` are `DeleteDatabase`'s, `SwapOut` and `Mark` those of `Close`. */
  datatype Step =
    | Touch(handle: nat, now: int) | Evict(name: string) | Open(name: string, now: int) | Shut(handle: nat)
    | StartDelete(name: string) | FinishDelete(name: string) | SwapOut | Mark(handle: nat)

  ghost predicate Enabled(c: Cache, limit: int, s: Step)
    requires Sound(c)
  {
    match s
    case Touch(h, _) => h < |c.handles| && c.handles[h].active
    case Evict(n) => limit > 0 && |c.dbs| >= limit && Oldest(c, n)
    case Open(n, _) => n !in c.dbs && (limit <= 0 || |c.dbs| < limit)
    case Shut(h) => h < |c.handles| && !c.handles[h].active
    case StartDelete(_) => true
    case FinishDelete(n) => n in c.deleting
    case SwapOut => true
    case Mark(h) => h in c.swapped
  }

  ghost function Next(c: Cache, limit: int, s: Step): Cache
    requires Sound(c) && Enabled(c, limit, s)
  {
    match s
    case Touch(h, now) => Update(c, h, c.handles[h].(lastUsed := now))
    case Evict(n) => Update(c, c.dbs[n], c.handles[c.dbs[n]].(active := false)).(dbs := c.dbs - {n})
    case Open(n, now) => Insert(c, n, Entry(n, true, true, now))
    case Shut(h) => Update(c, h, c.handles[h].(open := false))
    case StartDelete(n) =>
      (if n in c.dbs then Update(c, c.dbs[n], c.handles[c.dbs[n]].(active := false)) else Insert(c, n, Entry(n, false, false, 0)))
        .(deleting := c.deleting + multiset{n})
    case FinishDelete(n) => c.(dbs := c.dbs - {n}, deleting := c.deleting - multiset{n})
    case SwapOut => c.(swapped := c.swapped + c.dbs.Values, dbs := map[])
    case Mark(h) => Update(c, h, c.handles[h].(active := false)).(swapped := c.swapped - {h})
  }

  /** The sections are those of the undisturbed calls: a hit is one touch, an eviction followed by its
      shutting is `EvictOldest`, a miss ends by opening. */
  lemma SectionsAreTheCalls(handles: seq<Entry>, dbs: map<string, nat>, limit: int, name: string, now: int)
    requires Sound(Cache(handles, dbs, {}, multiset{}))
    ensures var c := Cache(handles, dbs, {}, multiset{});
            && (name in dbs && handles[dbs[name]].active ==>
                  Enabled(c, limit, Touch(dbs[name], now))
                  && Next(c, limit, Touch(dbs[name], now))
                     == Cache(handles[dbs[name] := Entry(name, true, true, now)], dbs, {}, multiset{}))
            && (name !in dbs && (limit <= 0 || |dbs| < limit) ==>
                  Enabled(c, limit, Open(name, now))
                  && Next(c, limit, Open(name, now)) == Cache(handles + [Entry(name, true, true, now)], dbs[name := |handles|], {}, multiset{}))
  {
  }

  lemma EvictionIsEvictAndShut(handles: seq<Entry>, dbs: map<string, nat>, limit: int, oldest: string)
    requires Sound(Cache(handles, dbs, {}, multiset{})) && Enabled(Cache(handles, dbs, {}, multiset{}), limit, Evict(oldest))
    ensures var c, h := Cache(handles, dbs, {}, multiset{}), dbs[oldest];
            var evicted := Next(c, limit, Evict(oldest));
            && Sound(evicted) && Enabled(evicted, limit, Shut(h))
            && Next(evicted, limit, Shut(h)) == Cache(handles[h := handles[h].(active := false, open := false)], dbs - {oldest}, {}, multiset{})
  {
    NextIsSound(Cache(handles, dbs, {}, multiset{}), limit, Evict(oldest));
  }

  /** What the sections of `DeleteDatabase` and `Close` do: a name being deleted is refused at once and
      is out of the cache in the end; closing empties the cache and marks every handle it held. */
  lemma ClosingSections(c: Cache, limit: int, n: string, h: nat)
    requires Sound(c)
    ensures var s := Next(c, limit, StartDelete(n));
            n in s.dbs && s.dbs[n] < |s.handles| && !s.handles[s.dbs[n]].active && n in s.deleting
            && forall m | m != n :: (m in s.dbs <==> m in c.dbs) && (m in c.dbs ==> s.dbs[m] == c.dbs[m])
    ensures n in c.deleting ==>
              var s := Next(c, limit, FinishDelete(n));
              && s.handles == c.handles && s.dbs == c.dbs - {n} && s.swapped == c.swapped && s.deleting == c.deleting - multiset{n}
    ensures var s := Next(c, limit, SwapOut);
            s.handles == c.handles && s.dbs == map[] && forall m | m in c.dbs :: c.dbs[m] in s.swapped
    ensures h in c.swapped ==>
              var s := Next(c, limit, Mark(h));
              && h < |s.handles| && !s.handles[h].active && h !in s.swapped && s.dbs == c.dbs
              && forall i | 0 <= i < |c.handles| && i != h :: s.handles[i] == c.handles[i]
  {
  }

  lemma UpdateIsSound(c: Cache, h: nat, e: Entry, dbs: map<string, nat>, swapped: set<nat>)
    requires Sound(c) && h < |c.handles| && e.name == c.handles[h].name && (e.active ==> e.open)
    requires forall n | n in dbs :: n in c.dbs && dbs[n] == c.dbs[n]
    requires swapped <= c.swapped
    ensures Sound(Update(c, h, e).(dbs := dbs, swapped := swapped))
  {
  }

  lemma InsertIsSound(c: Cache, name: string, e: Entry, deleting: multiset<string>)
    requires Sound(c) && e.name == name && (e.active ==> e.open)
    ensures Sound(Insert(c, name, e).(deleting := deleting))
  {
  }

  lemma SwapIsSound(c: Cache)
    requires Sound(c)
    ensures Sound(c.(swapped := c.swapped + c.dbs.Values, dbs := map[]))
  {
  }

  lemma NextIsSound(c: Cache, limit: int, s: Step)
    requires Sound(c) && Enabled(c, limit, s)
    ensures Sound(Next(c, limit, s))
  {
    match s {
      case Touch(h, now) => { UpdateIsSound(c, h, c.handles[h].(lastUsed := now), c.dbs, c.swapped); }
      case Evict(n) => { UpdateIsSound(c, c.dbs[n], c.handles[c.dbs[n]].(active := false), c.dbs - {n}, c.swapped); }
      case Open(n, now) => { InsertIsSound(c, n, Entry(n, true, true, now), c.deleting); }
      case Shut(h) => { UpdateIsSound(c, h, c.handles[h].(open := false), c.dbs, c.swapped); }
      case StartDelete(n) => {
        if n in c.dbs { UpdateIsSound(c, c.dbs[n], c.handles[c.dbs[n]].(active := false), c.dbs, c.swapped); }
        else { InsertIsSound(c, n, Entry(n, false, false, 0), c.deleting + multiset{n}); }
      }
      case FinishDelete(n) => {}
      case SwapOut => { SwapIsSound(c); }
      case Mark(h) => { UpdateIsSound(c, h, c.handles[h].(active := false), c.dbs, c.swapped - {h}); }
    }
  }

  /** Cached names whose deletion is under way. */
  function Doomed(dbs: map<string, nat>, deleting: multiset<string>): set<string> {
    set n | n in dbs.Keys && n in deleting
  }

  predicate Bounded(dbs: map<string, nat>, deleting: multiset<string>, limit: int) {
    limit > 0 ==> |dbs| <= limit + |Doomed(dbs, deleting)|
  }

  /** A name leaves the cache; if its deletion is what ends, its allowance goes with it. */
  lemma RemovalKeepsBound(dbs: map<string, nat>, deleting: multiset<string>, n: string, after: multiset<string>, limit: int)
    requires Bounded(dbs, deleting, limit) && (after == deleting || after == deleting - multiset{n})
    ensures Bounded(dbs - {n}, after, limit)
  {
    var rest := dbs - {n};
    assert |dbs| == |dbs.Keys| && |rest| == |rest.Keys|;
    assert Doomed(rest, after) == Doomed(dbs, deleting) - {n};
    if n in dbs {
      assert rest.Keys == dbs.Keys - {n} && |rest.Keys| == |dbs.Keys| - 1;
    } else {
      assert rest == dbs;
    }
  }

  /** `DeleteDatabase` brings its allowance along. */
  lemma DeletionKeepsBound(dbs: map<string, nat>, deleting: multiset<string>, n: string, h: nat, limit: int)
    requires Bounded(dbs, deleting, limit)
    ensures Bounded(if n in dbs then dbs else dbs[n := h], deleting + multiset{n}, limit)
  {
    var after := if n in dbs then dbs else dbs[n := h];
    assert after.Keys == dbs.Keys + {n} && |dbs| == |dbs.Keys| && |after| == |after.Keys|;
    var was := Doomed(dbs, deleting);
    assert Doomed(after, deleting + multiset{n}) == was + {n};
    assert n !in dbs ==> |was + {n}| == |was| + 1 && |dbs.Keys + {n}| == |dbs.Keys| + 1;
    assert n in was ==> was + {n} == was;
  }

  lemma OpeningKeepsBound(dbs: map<string, nat>, n: string, h: nat, deleting: multiset<string>, limit: int)
    requires n !in dbs && (limit <= 0 || |dbs| < limit)
    ensures limit > 0 ==> |dbs[n := h]| <= limit
    ensures Bounded(dbs[n := h], deleting, limit)
  {
    var after := dbs[n := h];
    assert after.Keys == dbs.Keys + {n} && |dbs| == |dbs.Keys| && |after| == |after.Keys|;
  }

  /** `getDB` alone leaves at most `limit` handles; only a `DeleteDatabase` in progress, which
      inserts its placeholder without looking at the limit, can exceed it, by one handle each. */
  lemma NextIsBounded(c: Cache, limit: int, s: Step)
    requires Sound(c) && Enabled(c, limit, s) && Bounded(c.dbs, c.deleting, limit)
    ensures Bounded(Next(c, limit, s).dbs, Next(c, limit, s).deleting, limit)
    ensures s.Open? && limit > 0 ==> |Next(c, limit, s).dbs| <= limit
  {
    if s.Evict? {
      RemovalKeepsBound(c.dbs, c.deleting, s.name, c.deleting, limit);
    } else if s.FinishDelete? {
      RemovalKeepsBound(c.dbs, c.deleting, s.name, c.deleting - multiset{s.name}, limit);
    } else if s.Open? {
      OpeningKeepsBound(c.dbs, s.name, |c.handles|, c.deleting, limit);
    } else if s.StartDelete? {
      DeletionKeepsBound(c.dbs, c.deleting, s.name, |c.handles|, limit);
    }
  }

  // ---------------------------------------------------------------- no handle goes astray

  /** `Close` and eviction can reach every handle still in use: it is cached under its name, or
      `Close` already has it. */
  ghost predicate NoneAstray(c: Cache)
    requires Sound(c)
  {
    forall i | 0 <= i < |c.handles| && c.handles[i].active ::
      i in c.swapped || (c.handles[i].name in c.dbs && c.dbs[c.handles[i].name] == i)
  }

  /** Two handles in use never share a database file, unless `Close` is about to mark one of them. */
  lemma OneHandlePerFile(c: Cache, i: nat, j: nat)
    requires Sound(c) && NoneAstray(c)
    requires i < |c.handles| && j < |c.handles| && c.handles[i].active && c.handles[j].active
    requires i !in c.swapped && j !in c.swapped && c.handles[i].name == c.handles[j].name
    ensures i == j
  {
  }

  /** The one section that can lose a handle: the second of `DeleteDatabase`, when the name has
      been reopened since the first. */
  predicate DropsALiveHandle(c: Cache, s: Step)
    requires forall n | n in c.dbs :: c.dbs[n] < |c.handles|
  {
    s.FinishDelete? && s.name in c.dbs && c.handles[c.dbs[s.name]].active
      && c.dbs[s.name] !in c.swapped
  }

  lemma UpdateLosesNothing(c: Cache, h: nat, e: Entry)
    requires Sound(c) && NoneAstray(c) && h < |c.handles| && e.name == c.handles[h].name
    requires e.active ==> e.open && c.handles[h].active
    ensures Sound(Update(c, h, e)) && NoneAstray(Update(c, h, e))
  {
  }

  lemma InsertLosesNothing(c: Cache, name: string, e: Entry, deleting: multiset<string>)
    requires Sound(c) && NoneAstray(c) && name !in c.dbs && e.name == name && (e.active ==> e.open)
    ensures Sound(Insert(c, name, e).(deleting := deleting)) && NoneAstray(Insert(c, name, e).(deleting := deleting))
  {
  }

  lemma RemovalLosesWhatWasLive(c: Cache, n: string, deleting: multiset<string>)
    requires Sound(c) && NoneAstray(c)
    ensures Sound(c.(dbs := c.dbs - {n}, deleting := deleting))
    ensures NoneAstray(c.(dbs := c.dbs - {n}, deleting := deleting))
            <==> !(n in c.dbs && c.handles[c.dbs[n]].active && c.dbs[n] !in c.swapped)
  {
  }

  lemma SwapLosesNothing(c: Cache)
    requires Sound(c) && NoneAstray(c)
    ensures Sound(c.(swapped := c.swapped + c.dbs.Values, dbs := map[]))
    ensures NoneAstray(c.(swapped := c.swapped + c.dbs.Values, dbs := map[]))
  {
    forall i | 0 <= i < |c.handles| && c.handles[i].active ensures i in c.swapped + c.dbs.Values {
      assert i !in c.swapped ==> c.dbs[c.handles[i].name] in c.dbs.Values;
    }
  }

  lemma HandlesGoAstrayExactlyWhenDropped(c: Cache, limit: int, s: Step)
    requires Sound(c) && Enabled(c, limit, s) && NoneAstray(c)
    ensures Sound(Next(c, limit, s)) && (NoneAstray(Next(c, limit, s)) <==> !DropsALiveHandle(c, s))
  {
    match s {
      case Touch(h, now) => { UpdateLosesNothing(c, h, c.handles[h].(lastUsed := now)); }
      case Evict(n) => {
        UpdateLosesNothing(c, c.dbs[n], c.handles[c.dbs[n]].(active := false));
        RemovalLosesWhatWasLive(Update(c, c.dbs[n], c.handles[c.dbs[n]].(active := false)), n, c.deleting);
      }
      case Open(n, now) => { InsertLosesNothing(c, n, Entry(n, true, true, now), c.deleting); }
      case Shut(h) => { UpdateLosesNothing(c, h, c.handles[h].(open := false)); }
      case StartDelete(n) => {
        if n in c.dbs { UpdateLosesNothing(c, c.dbs[n], c.handles[c.dbs[n]].(active := false)); }
        else { InsertLosesNothing(c, n, Entry(n, false, false, 0), c.deleting + multiset{n}); }
      }
      case FinishDelete(n) => { RemovalLosesWhatWasLive(c, n, c.deleting - multiset{n}); }
      case SwapOut => { SwapLosesNothing(c); }
      case Mark(h) => { UpdateLosesNothing(c, h, c.handles[h].(active := false)); }
    }
  }

  // ---------------------------------------------------------------- runs

  ghost predicate IsRun(c: Cache, limit: int, steps: seq<Step>, last: Cache)
    decreases |steps|
  {
    if steps == [] then last == c
    else Sound(c) && Enabled(c, limit, steps[0]) && IsRun(Next(c, limit, steps[0]), limit, steps[1..], last)
  }

  lemma {:induction false} CacheStaysBounded(c: Cache, limit: int, steps: seq<Step>, last: Cache)
    requires Sound(c) && Bounded(c.dbs, c.deleting, limit) && IsRun(c, limit, steps, last)
    ensures Sound(last) && Bounded(last.dbs, last.deleting, limit)
    decreases |steps|
  {
    if steps != [] {
      NextIsSound(c, limit, steps[0]);
      NextIsBounded(c, limit, steps[0]);
      CacheStaysBounded(Next(c, limit, steps[0]), limit, steps[1..], last);
    }
  }

  /** While a name is being deleted it is neither evicted nor swapped out by `Close`, and not
      deleted a second time. */
  predicate Calm(c: Cache, s: Step) {
    match s
    case Evict(n) => n !in c.deleting
    case SwapOut => c.deleting == multiset{}
    case StartDelete(n) => n !in c.deleting
    case _ => true
  }

  ghost predicate IsCalmRun(c: Cache, limit: int, steps: seq<Step>, last: Cache)
    decreases |steps|
  {
    if steps == [] then last == c
    else
      && Sound(c) && Enabled(c, limit, steps[0]) && Calm(c, steps[0])
      && IsCalmRun(Next(c, limit, steps[0]), limit, steps[1..], last)
  }

  /** Every name being deleted is held in the cache by an inactive handle, so `getDB` refuses it. */
  ghost predicate DeletesHold(c: Cache)
    requires Sound(c)
  {
    forall n | n in c.deleting :: n in c.dbs && !c.handles[c.dbs[n]].active && c.deleting[n] == 1
  }

  lemma CalmKeepsDeletes(c: Cache, limit: int, s: Step)
    requires Sound(c) && Enabled(c, limit, s) && DeletesHold(c) && Calm(c, s)
    ensures Sound(Next(c, limit, s)) && DeletesHold(Next(c, limit, s))
  {
    NextIsSound(c, limit, s);
    if s.FinishDelete? {
      assert forall n :: n in Next(c, limit, s).deleting ==> n in c.deleting && n != s.name;
    }
  }

  /** In every calm run no handle goes astray; once `Close` has marked what it took and nothing was
      opened since, no handle is in use. */
  lemma {:induction false} CalmRunsLoseNothing(c: Cache, limit: int, steps: seq<Step>, last: Cache)
    requires Sound(c) && DeletesHold(c) && NoneAstray(c) && IsCalmRun(c, limit, steps, last)
    ensures Sound(last) && DeletesHold(last) && NoneAstray(last)
    ensures last.dbs == map[] && last.swapped == {} ==> forall i | 0 <= i < |last.handles| :: !last.handles[i].active
    decreases |steps|
  {
    if steps != [] {
      HandlesGoAstrayExactlyWhenDropped(c, limit, steps[0]);
      CalmKeepsDeletes(c, limit, steps[0]);
      CalmRunsLoseNothing(Next(c, limit, steps[0]), limit, steps[1..], last);
    }
  }

  const EMPTY := Cache([], map[], {}, multiset{})
  const OPENED := Cache([Entry("a", true, true, 1)], map["a" := 0], {}, multiset{})
  const MARKED := Cache([Entry("a", false, true, 1)], map["a" := 0], {}, multiset{"a"})
  const EVICTED := Cache([Entry("a", false, true, 1)], map[], {}, multiset{"a"})
  const REOPENED := Cache([Entry("a", false, true, 1), Entry("a", true, true, 2)], map["a" := 1], {}, multiset{"a"})
  const ASTRAY := Cache([Entry("a", false, true, 1), Entry("a", true, true, 2)], map[], {}, multiset{})

  lemma Openings()
    ensures Sound(EMPTY) && Enabled(EMPTY, 1, Open("a", 1)) && Next(EMPTY, 1, Open("a", 1)) == OPENED
    ensures Sound(EVICTED) && Enabled(EVICTED, 1, Open("a", 2)) && Next(EVICTED, 1, Open("a", 2)) == REOPENED
  {
  }

  lemma Deletions()
    ensures Sound(OPENED) && Enabled(OPENED, 1, StartDelete("a")) && Next(OPENED, 1, StartDelete("a")) == MARKED
    ensures Sound(REOPENED) && Enabled(REOPENED, 1, FinishDelete("a")) && Next(REOPENED, 1, FinishDelete("a")) == ASTRAY
  {
  }

  lemma Eviction()
    ensures Sound(MARKED) && Enabled(MARKED, 1, Evict("a")) && Next(MARKED, 1, Evict("a")) == EVICTED
  {
    assert MARKED.dbs.Keys == {"a"} && |MARKED.dbs| == |MARKED.dbs.Keys|;
  }

  /** Without calm it happens: a second `getDB` evicts the database being deleted to make room, a
      third reopens it, and the deletion then drops the new handle, active and open, where neither
      eviction nor `Close` will find it. */
  lemma AHandleGoesAstray() returns (steps: seq<Step>, last: Cache)
    ensures IsRun(EMPTY, 1, steps, last)
    ensures Sound(last) && !NoneAstray(last) && |last.handles| == 2 && last.handles[1].active && last.handles[1].open
  {
    Openings();
    Deletions();
    Eviction();
    last := ASTRAY;
    steps := Prepend(REOPENED, FinishDelete("a"), ASTRAY, [], last);
    steps := Prepend(EVICTED, Open("a", 2), REOPENED, steps, last);
    steps := Prepend(MARKED, Evict("a"), EVICTED, steps, last);
    steps := Prepend(OPENED, StartDelete("a"), MARKED, steps, last);
    steps := Prepend(EMPTY, Open("a", 1), OPENED, steps, last);
  }

  lemma Prepend(c: Cache, s: Step, next: Cache, rest: seq<Step>, last: Cache) returns (steps: seq<Step>)
    requires Sound(c) && Enabled(c, 1, s) && Next(c, 1, s) == next && IsRun(next, 1, rest, last)
    ensures IsRun(c, 1, steps, last)
  {
    steps := [s] + rest;
    assert steps[1..] == rest;
  }
}
